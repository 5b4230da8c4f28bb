/**
 * The token codec of cookie-based sessions. A token is one tag character followed by
 * the URL-safe base64 encoding of the ciphertext of the JSON form of `[values, expire]`.
 * The tag is the encryption's identifier letter, lower-cased when the JSON was compressed
 * before encryption.
 *
 * Encryption, compression and JSON are collaborators whose code is not modelled: they are
 * the function-valued fields of `Config`, and `Sound` states the laws they must obey.
 */
module CookieBased {
  import opened Wrappers
  import opened Base64Url
  import opened SessionData

  /** A cipher: its identifier letter, `encrypt`, and `decrypt`, which fails (`None`, the
      `FormatException`) on ciphertext it does not authenticate. */
  datatype Encryption = Encryption(id: char, encrypt: Bytes -> Bytes, decrypt: Bytes -> Option<Bytes>)

  /** The size heuristic and the reversible compression; `None` is a failed decompression. */
  datatype Compression = Compression(worthwhile: int -> bool, compress: Bytes -> Bytes, decompress: Bytes -> Option<Bytes>)

  /** `json_encode` of `[values, expire]` and `json_decode`, `None` standing for `null`. */
  datatype Json = Json(encode: Payload -> Bytes, decode: Bytes -> Option<Payload>)

  /** What a `CookieBased` instance holds, plus the session duration of its base class. */
  datatype Config = Config(encryption: Encryption, compression: Compression, json: Json, duration: int)

  /** The laws of the collaborators: an upper-case identifier letter, and each decoder
      inverts its encoder. */
  ghost predicate Sound(c: Config) {
    && 'A' <= c.encryption.id <= 'Z'
    && (forall x :: c.encryption.decrypt(c.encryption.encrypt(x)) == Some(x))
    && (forall x :: c.compression.decompress(c.compression.compress(x)) == Some(x))
    && (forall p :: c.json.decode(c.json.encode(p)) == Some(p))
  }

  /** `strtolower` on one character (ASCII only). */
  function ToLower(ch: char): char {
    if 'A' <= ch <= 'Z' then (ch as int + 32) as char else ch
  }

  /** `serialize`: the tag, then the encoded ciphertext. */
  function Serialize(c: Config, values: Entries, expire: int): (token: string)
    ensures |token| >= 1
    ensures token[0] == if c.compression.worthwhile(|c.json.encode(Payload(values, expire))|)
                         then ToLower(c.encryption.id) else c.encryption.id
    ensures forall i | 1 <= i < |token| :: IsUrlDigit(token[i])
  {
    var value := c.json.encode(Payload(values, expire));
    var sealed := if c.compression.worthwhile(|value|)
                  then c.encryption.encrypt(c.compression.compress(value))
                  else c.encryption.encrypt(value);
    var id := if c.compression.worthwhile(|value|) then ToLower(c.encryption.id) else c.encryption.id;
    [id] + Encode(sealed)
  }

  /** `open`: the payload of a token, or `None` when the tag does not match the
      encryption's identifier (ignoring case), the body cannot be decoded or decrypted,
      decompression or JSON decoding fails, or the token expired before `now`. */
  function Open(c: Config, token: string, now: int): (r: Option<Payload>)
    ensures |token| == 0 || ToLower(token[0]) != ToLower(c.encryption.id) ==> r == None
    ensures r.Some? ==> now <= r.value.expire
  {
    if |token| == 0 || ToLower(token[0]) != ToLower(c.encryption.id) then None
    else match Decode(token[1..])
      case None => None
      case Some(sealed) =>
        match c.encryption.decrypt(sealed)
        case None => None
        case Some(plain) =>
          var text := if token[0] >= 'a' then c.compression.decompress(plain) else Some(plain);
          match text
          case None => None
          case Some(t) =>
            Admit(c.json.decode(t), now)
  }

  /** The expiry check of `open`: a decoded payload is admitted unless it expired. */
  function Admit(p: Option<Payload>, now: int): (r: Option<Payload>)
    ensures r.Some? <==> p.Some? && now <= p.value.expire
    ensures r.Some? ==> r == p
  {
    match p
    case None => None
    case Some(q) => if now > q.expire then None else p
  }

  /** The tag of a serialized token names the encryption, whatever its case, and is
      lower case exactly when the JSON was worth compressing. */
  lemma SerializeTag(c: Config, values: Entries, expire: int)
    requires 'A' <= c.encryption.id <= 'Z'
    ensures var token := Serialize(c, values, expire);
      && ToLower(token[0]) == ToLower(c.encryption.id)
      && (token[0] >= 'a' <==> c.compression.worthwhile(|c.json.encode(Payload(values, expire))|))
  {
  }

  /** The body of a serialized token decodes to the ciphertext of the JSON, compressed
      first exactly when compression is worthwhile. */
  lemma SerializeBody(c: Config, values: Entries, expire: int)
    ensures var value := c.json.encode(Payload(values, expire));
      Decode(Serialize(c, values, expire)[1..])
        == Some(if c.compression.worthwhile(|value|)
                then c.encryption.encrypt(c.compression.compress(value))
                else c.encryption.encrypt(value))
  {
    var value := c.json.encode(Payload(values, expire));
    var sealed := if c.compression.worthwhile(|value|)
                  then c.encryption.encrypt(c.compression.compress(value))
                  else c.encryption.encrypt(value);
    RoundTrip(sealed);
    assert Serialize(c, values, expire)[1..] == Encode(sealed);
  }

  /** The token of the unit tests, `@non-existant@`, opens to nothing: `@` is no letter. */
  lemma OpenNonExistent(c: Config, now: int)
    requires 'A' <= c.encryption.id <= 'Z'
    ensures Open(c, "@non-existant@", now) == None
  {
  }

  /** A body that does not decrypt makes `open` return nothing rather than fail. */
  lemma OpenUndecryptable(c: Config, token: string, sealed: Bytes, now: int)
    requires |token| > 0 && ToLower(token[0]) == ToLower(c.encryption.id)
    requires Decode(token[1..]) == Some(sealed) && c.encryption.decrypt(sealed) == None
    ensures Open(c, token, now) == None
  {
  }

  /** Once the body decrypts, a lower-case tag sends the plaintext through `decompress`
      before JSON decoding, an upper-case tag does not; then the expiry check applies,
      which admits a token expiring exactly `now`. */
  lemma OpenDecrypted(c: Config, token: string, sealed: Bytes, plain: Bytes, now: int)
    requires 'A' <= c.encryption.id <= 'Z'
    requires |token| > 0 && ToLower(token[0]) == ToLower(c.encryption.id)
    requires Decode(token[1..]) == Some(sealed) && c.encryption.decrypt(sealed) == Some(plain)
    ensures token[0] == ToLower(c.encryption.id) ==>
      Open(c, token, now) == match c.compression.decompress(plain)
                             case None => None
                             case Some(t) => Admit(c.json.decode(t), now)
    ensures token[0] == c.encryption.id ==> Open(c, token, now) == Admit(c.json.decode(plain), now)
  {
  }

  /** Envelope round trip: a token serialized with an expiry not before `now` opens to
      exactly the values and expiry it was made from, compressed or not. */
  lemma EnvelopeRoundTrip(c: Config, values: Entries, expire: int, now: int)
    requires Sound(c)
    ensures now <= expire ==> Open(c, Serialize(c, values, expire), now) == Some(Payload(values, expire))
    ensures now > expire ==> Open(c, Serialize(c, values, expire), now) == None
  {
    var token := Serialize(c, values, expire);
    var value := c.json.encode(Payload(values, expire));
    SerializeTag(c, values, expire);
    SerializeBody(c, values, expire);
    var plain := if c.compression.worthwhile(|value|) then c.compression.compress(value) else value;
    assert c.encryption.decrypt(c.encryption.encrypt(plain)) == Some(plain);
    assert c.compression.decompress(c.compression.compress(value)) == Some(value);
    assert c.json.decode(value) == Some(Payload(values, expire));
  }

  /** Compression is transparent: whatever the size heuristic decides, the token opens to
      the same result. */
  lemma CompressionTransparent(c: Config, worthwhile: int -> bool, values: Entries, expire: int, now: int)
    requires Sound(c)
    ensures var c' := c.(compression := c.compression.(worthwhile := worthwhile));
      Open(c', Serialize(c', values, expire), now) == Open(c, Serialize(c, values, expire), now)
  {
    var c' := c.(compression := c.compression.(worthwhile := worthwhile));
    EnvelopeRoundTrip(c, values, expire, now);
    EnvelopeRoundTrip(c', values, expire, now);
  }
}
