# Cookie-based sessions, modelled in Dafny

This project models the core of `xp-forge/cookie-sessions`, a PHP library that keeps session data
in the cookie itself instead of on the server. The session data is `[values, expire]`. A token is
built from it in these steps:

- encode the data as JSON;
- compress it when that is worthwhile;
- encrypt it;
- encode the ciphertext as URL-safe base64 (section 5 of RFC 4648);
- put one tag character in front: the encryption's identifier letter, lower-cased when the JSON
  was compressed.

Opening a token undoes each step. Any failure gives "no session" (`null`): a wrong tag, a body
that does not decode or decrypt, a failed decompression, JSON that does not decode, or an expired
token. The session object holds the values as an ordered map from names to one-element lists, plus
the expiry, and it computes its token lazily and caches it. `register`, `value` and `remove` check
that the session is still live; `keys` and `id` do not. `register` and a successful `remove` discard
the cached token; `destroy` does not.

Files:

- `wrappers.dfy`: `Option`.
- `base64url.dfy` (module `Base64Url`): a concrete model of the base64 layer. `Encode` is the
  source's own pipeline: standard base64 with padding, then the `/+` to `_-` translation, then
  trimming the `=` padding. `Decode` translates `_-` back and decodes the digits, with the padding
  implied by the length.
- `session_data.dfy` (module `SessionData`): session values, the ordered map (`Entries`, a
  sequence of entries with distinct names, standing for a PHP array with string keys), and the
  `Payload`.
- `cookie_based.dfy` (module `CookieBased`): `serialize` and `open` as pure functions.
  Encryption, compression and JSON are function-valued fields of `Config`. The predicate `Sound`
  states their laws:
  - the identifier is an upper-case letter;
  - `decrypt(encrypt(x)) == x`, while `decrypt` may fail on other input;
  - `decompress(compress(x)) == x`;
  - `json.decode(json.encode(p)) == p`.
- `session.dfy` (module `CookieSession`): the `Session` class, whose methods update its fields in
  place. It also holds `create` and `open` as methods that construct sessions, and client methods
  that replay the library's unit-test scenarios against the contracts.

The clock is the explicit parameter `now`.

Two behaviours of the source are modelled as written:

- `register`, `value` and `remove` on an expired session call `id()` before they throw
  `SessionInvalid`. So they may fill the token cache. Values, expiry and `detached` stay unchanged.
- `destroy` does not clear the cached token. An id computed before `destroy` is returned again
  afterwards, and it still opens to a live session (`CookieSession.CachedIdSurvivesDestroy`). To
  express this, a ghost field records the expiry that the cached token was built with. Only an id
  that is first computed after `destroy` opens to nothing.

## Model

| member | source | states |
|---|---|---|
| `Base64Url.RoundTrip` | src/main/php/web/session/CookieBased.class.php:46-58 | decoding the URL-safe encoding of any byte string, the empty one included, gives the byte string back |
| `Base64Url.Encode` | src/main/php/web/session/CookieBased.class.php:46-48 | `rtrim(strtr(base64_encode($input), '/+', '_-'), '=')`: the encoding has length ceil(4n/3), uses only `A-Z a-z 0-9 - _`, and contains no `=`; `RoundTrip` gives its inverse, `EncodeIsUrlDigits` its padding-free form |
| `Base64Url.EncodeIsUrlDigits` | src/main/php/web/session/CookieBased.class.php:47 | trimming `=` after translating the padded standard encoding leaves exactly the translated unpadded digits |
| `Base64Url.DigitsRoundTrip` | src/main/php/web/session/CookieBased.class.php:46-58 | decoding the standard digits of a byte string gives the byte string back |
| `Base64Url.DigitsShape` | src/main/php/web/session/CookieBased.class.php:47 | the standard encoding without padding has ceil(4n/3) digits, all from the standard alphabet |
| `Base64Url.FromToUrlSafe` | src/main/php/web/session/CookieBased.class.php:46-58 | the decoder's `_-` to `/+` translation undoes the encoder's `/+` to `_-` translation on standard digits |
| `Base64Url.TrimPadding` | src/main/php/web/session/CookieBased.class.php:47 | `rtrim(.., '=')` keeps a prefix that does not end in `=`, and everything it drops is `=` |
| `Base64Url.Decode` | src/main/php/web/session/CookieBased.class.php:56-58 | `base64_decode(strtr($input, '_-', '/+').'===')`, decoded strictly: a body decodes exactly when every character is `A-Z a-z 0-9 - _ + /` and its length is not 1 modulo 4, and then it gives floor(3n/4) bytes; `RoundTrip` shows it undoes `Encode` |
| `Base64Url.DecodeDigitsAccepts` | src/main/php/web/session/CookieBased.class.php:57 | standard digits decode exactly when each is in the standard alphabet and the last group does not hold a single digit, four digits giving three bytes |
| `Base64Url.StdValue` | src/main/php/web/session/CookieBased.class.php:56-58 | a recognised digit has a 6-bit value whose digit is that character; `=` is never a digit |
| `SessionData.Find` | src/main/php/web/session/cookie/Session.class.php:75 | finds the first entry with the name, or reports that no entry has it |
| `SessionData.Lookup` | src/main/php/web/session/cookie/Session.class.php:90 | a key is found exactly when it is among the names, and then its own list is returned |
| `SessionData.Put` | src/main/php/web/session/cookie/Session.class.php:57 | assignment stores the list under the name; an existing name keeps its position, a new one is appended last; other names are unaffected |
| `SessionData.Delete` | src/main/php/web/session/cookie/Session.class.php:91 | `unset` removes only that name's entry, keeps the order of the rest, and is the identity on an absent name |
| `SessionData.Fetch` | src/main/php/web/session/cookie/Session.class.php:75 | `[$name][0] ?? $default` returns the first value stored under a present name when that value exists and is not null, and the default otherwise (absent name, empty list, null value) |
| `SessionData.FetchAfterPut` | src/main/php/web/session/cookie/Session.class.php:57-75 | after storing `[v]`, reading the name gives `v`, or the default when `v` is null; other names read as before |
| `SessionData.FetchAfterDelete` | src/main/php/web/session/cookie/Session.class.php:75-91 | after removal, reading the name gives the default; other names read as before |
| `CookieBased.Serialize` | src/main/php/web/session/CookieBased.class.php:67-79 | the token is a tag (lower-cased exactly when compression is worthwhile) followed only by URL-safe digits |
| `CookieBased.SerializeTag` | src/main/php/web/session/CookieBased.class.php:70-76 | the tag equals the encryption id ignoring case, and it is lower case exactly when `worthwhile(strlen(json))` holds |
| `CookieBased.SerializeBody` | src/main/php/web/session/CookieBased.class.php:68-78 | the token body decodes to the encryption of the JSON, which is compressed first exactly when that is worthwhile |
| `CookieBased.Open` | src/main/php/web/session/CookieBased.class.php:97-122 | an empty token, or one whose first character differs from the id ignoring case, opens to nothing; an opened payload is never expired (its last step is `Admit`) |
| `CookieBased.Admit` | src/main/php/web/session/CookieBased.class.php:119 | a decoded payload is admitted exactly when JSON decoding succeeded and `now` is not past its expiry |
| `CookieBased.OpenNonExistent` | src/test/php/web/session/unittest/CookieBasedTest.class.php:65-67 | the token `@non-existant@` opens to nothing |
| `CookieBased.OpenUndecryptable` | src/main/php/web/session/CookieBased.class.php:105-109 | a body that fails to decrypt makes `open` return nothing instead of failing |
| `CookieBased.OpenDecrypted` | src/main/php/web/session/CookieBased.class.php:112-119 | a lower-case tag decompresses the plaintext before JSON decoding; an upper-case tag decodes it directly; then expiry is checked, so `expire == now` is accepted |
| `CookieBased.EnvelopeRoundTrip` | src/main/php/web/session/CookieBased.class.php:67-122 | a serialized token opens to exactly its values and expiry when `now <= expire`, in both compression branches, and to nothing when `now > expire` |
| `CookieBased.CompressionTransparent` | src/main/php/web/session/CookieBased.class.php:70-76 | the tag case depends on the size heuristic, but the opened result does not: a token opens to the same result whatever `worthwhile` decides |
| `CookieSession.Session.constructor` | src/main/php/web/session/cookie/Session.class.php:21-24 | a new session holds the given values and expiry, has no cached id, and is not detached |
| `CookieSession.Session.Id` | src/main/php/web/session/cookie/Session.class.php:27 | returns the cached id when there is one; otherwise it serializes the current values and expiry and caches the result; either way the token is the serialization of the current values (with the expiry it was cached under) |
| `CookieSession.Session.Destroy` | src/main/php/web/session/cookie/Session.class.php:30-33 | sets the expiry to `now - 1` and clears `detached`; afterwards the session is not live at any time `>= now` |
| `CookieSession.Session.Keys` | src/main/php/web/session/cookie/Session.class.php:40-42 | the keys are exactly the names a lookup finds, each listed once; not gated on liveness |
| `CookieSession.Session.Register` | src/main/php/web/session/cookie/Session.class.php:52-60 | throws `SessionInvalid` exactly when `now >= expires`, leaving values and `detached` unchanged; otherwise stores `[value]` under the name (`SessionData.Put`), so the keys stay as they were for an existing name and gain the name at the end for a new one; clears the cached id and sets `detached` |
| `CookieSession.Session.Value` | src/main/php/web/session/cookie/Session.class.php:70-76 | throws `SessionInvalid` exactly when `now >= expires`; otherwise returns the stored value or the default, without touching the cache |
| `CookieSession.Session.Remove` | src/main/php/web/session/cookie/Session.class.php:85-95 | throws `SessionInvalid` exactly when `now >= expires`; otherwise returns whether the name was present and leaves it absent; on success (`SessionData.Delete`) the keys lose exactly that name with the rest in order, the cached id is cleared and `detached` set; on failure nothing changes |
| `CookieSession.Create` | src/main/php/web/session/CookieBased.class.php:86-89 | a fresh session with no values, expiring `duration` after `now` |
| `CookieSession.OpenSession` | src/main/php/web/session/CookieBased.class.php:97-122 | returns null exactly when `open` yields nothing; otherwise a fresh session holding the opened values and expiry |
| `CookieSession.ReadWrite` | src/test/php/web/session/unittest/CookieBasedTest.class.php:157-161 | a value registered in a fresh session is read back |
| `CookieSession.ReadAbsent` | src/test/php/web/session/unittest/CookieBasedTest.class.php:170-173 | reading an absent name gives the default |
| `CookieSession.RemoveTwice` | src/test/php/web/session/unittest/CookieBasedTest.class.php:176-188 | removing a registered name returns true, removing it again returns false, and it then reads as null |
| `CookieSession.KeysInOrder` | src/test/php/web/session/unittest/CookieBasedTest.class.php:233-251 | the keys start empty and list names in registration order; re-registering a name keeps its place |
| `CookieSession.UseAfterDestroy` | src/test/php/web/session/unittest/CookieBasedTest.class.php:211-230 | after `destroy`, reads, writes and removals at that time or later all throw `SessionInvalid` |
| `CookieSession.OpenRegistered` | src/test/php/web/session/unittest/CookieBasedTest.class.php:53-62 | the id of a session opens to a session in which the registered value reads back |
| `CookieSession.IdChangesOnRegister` | src/test/php/web/session/unittest/CookieBasedTest.class.php:258-265 | registering a value changes the id, because the two tokens open to different values |
| `CookieSession.DestroyedTokenIsRejected` | src/test/php/web/session/unittest/CookieBasedTest.class.php:81-90 | an id first computed after `destroy` opens to nothing |
| `CookieSession.CachedIdSurvivesDestroy` | src/main/php/web/session/cookie/Session.class.php:27-33 | an id cached before `destroy` is returned unchanged afterwards and still opens to a live session |

## Left out

- Concrete ciphers (Sodium, OpenSSL), `Encryption::using` and `Encryption::available`, and the
  minimum key length. The cipher is abstract, bound only by the round-trip law and a `decrypt`
  that may fail. Tamper detection (bit flips, truncation, extension) is not modelled, because it
  is a property of the concrete ciphers.
- Randomised encryption nonces. `encrypt` is a function here, so the model cannot reproduce the
  test that the id changes after registering a value and then removing it again.
- The `Compression` class and zlib. `worthwhile`, `compress` and `decompress` are abstract. A
  failed decompression gives "no session", which is what `json_decode` of a failed inflate
  amounts to.
- JSON text. The payload is a datatype with an abstract encoder and decoder tied by the
  round-trip law. Some PHP array behaviour falls outside that law and is not modelled:
  - numeric-string keys turning into integer keys;
  - entries that are not lists;
  - `null` entries, which `isset` treats as absent.
- `Base64Url.Decode` is strict, unlike PHP's lenient `base64_decode`. The model rejects characters
  outside the alphabet, `=` and a lone final digit, where PHP would skip or tolerate them. The
  model still accepts `+` and `/` as well as `-` and `_`, because `strtr` leaves them in place.
  Like PHP, it ignores the unused low bits of a final partial group.
- Cookie transport and the session lifecycle of the base classes: `Persistence`, `Sessions`
  (`named`, `lasting`, `locate`, `via`, `transmit`, `close`, `valid`). What `detached` means to a
  response is also left out. `Session.Live` stands in for the liveness check.
- The constructor's `parent::__construct($sessions, false, $expires)` is taken to set `detached`
  to false and `expires` to the given expiry. `Persistence` is not part of this model.
- The wall clock `time()`. It is the parameter `now`.
- Integer width: timestamps are unbounded integers, so PHP's 64-bit overflow to float in
  `$now + $this->duration` and `time() - 1` is not modelled.
- Strings as bytes: session names and `Str` values are Dafny strings (sequences of Unicode
  characters), while PHP strings are raw bytes. The failure of `json_encode` (line 68 of
  `CookieBased.class.php`, called without flags) is not modelled: for bytes that are not valid
  UTF-8, or for nesting deeper than its depth limit, it returns `false`, the token carries no
  JSON, and `open` yields null. The round-trip law in `CookieBased.Sound`, and with it
  `CookieBased.EnvelopeRoundTrip`, therefore covers only data that `json_encode` accepts.
  `Value.Int` is unbounded, where PHP integers are 64-bit.
- `SessionData.Value` covers null, booleans, integers, strings and lists only. Floats, string-keyed
  arrays and objects, which a PHP session can store, are not modelled.
