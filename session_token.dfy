/** The signed session token carried in the `session` cookie, shared by both copies
    of the session code (session/src/lib.rs and src/session.rs): a 64-byte random
    secret followed by its HMAC-SHA256 tag (RFC 2104) under the signing key, encoded
    as unpadded base64url. The session's store id is the base64url of the blake3
    hash of the secret. HMAC and blake3 are parameters: the model only relies on
    their 32-byte output length. */
module SessionToken {
  import opened Common
  import Base64Url
  import Utf8
  import Http

  /** Name of the cookie carrying the token. */
  const CookieName: string := "session"
  /** Bytes in a decoded token. */
  const CookieSize: nat := 96
  /** Characters in an encoded token. */
  const SerializedLength: nat := 128
  /** Offset of the HMAC tag inside a decoded token. */
  const SignatureStartIndex: nat := 64

  /** A 32-byte digest, the output size of HMAC-SHA256 and of blake3. */
  type Digest = s: Bytes | |s| == 32 witness seq(32, _ => 0)

  /** HMAC-SHA256 of a message under a key. */
  type Mac = (Bytes, Bytes) -> Digest

  /** blake3 hash of a message. */
  type Hash = Bytes -> Digest

  /** The random value a fresh session puts in its cookie. */
  type Secret = s: Bytes | |s| == 64 witness seq(64, _ => 0)

  /** `Session::generate_id` / `Session::compute_id`. */
  function GenerateId(value: Bytes, blake3: Hash): (id: string)
    ensures |id| == 43
    ensures forall i :: 0 <= i < |id| ==> Base64Url.InAlphabet(id[i])
  {
    Base64Url.Encode(blake3(value))
  }

  /** The cookie value of a session whose secret is `value`. */
  function SignedToken(key: string, value: Secret, hmac: Mac): (token: string)
  {
    Base64Url.Encode(value + hmac(Utf8.Encode(key), value))
  }

  /** Outcome of checking a presented token, in the order the checks run. */
  datatype Verdict = WrongLength | NotBase64 | BadSignature | Valid(value: Secret)

  /** `load_from_token` / `from_cookie` up to the store lookup: the byte length must
      be 128, the text must decode, and the last 32 decoded bytes must be the HMAC of
      the first 64. */
  function Check(token: string, key: string, hmac: Mac): (v: Verdict)
    ensures v.Valid? ==> |token| == SerializedLength
  {
    if Utf8.ByteLength(token) != SerializedLength then WrongLength
    else match Base64Url.Decode(token)
      case None => NotBase64
      case Some(data) =>
        AsciiTokenLength(token);
        var value, signature := data[..SignatureStartIndex], data[SignatureStartIndex..];
        if hmac(Utf8.Encode(key), value) == signature then Valid(value) else BadSignature
  }

  /** A decodable token is ASCII, so its byte length is its character length. */
  lemma AsciiTokenLength(token: string)
    requires Base64Url.Decode(token).Some?
    ensures Utf8.ByteLength(token) == |token|
  {
    forall i | 0 <= i < |token|
      ensures Utf8.IsAscii(token[i])
    {
      assert Base64Url.InAlphabet(token[i]);
    }
    Utf8.EncodeAscii(token);
  }

  /** The encoding of any 96 bytes is 128 characters, and 128 bytes, long and
      decodes back to those bytes. */
  lemma EncodedCookie(data: Bytes)
    requires |data| == CookieSize
    ensures |Base64Url.Encode(data)| == SerializedLength
    ensures Utf8.ByteLength(Base64Url.Encode(data)) == SerializedLength
    ensures Base64Url.Decode(Base64Url.Encode(data)) == Some(data)
  {
    Base64Url.DecodeEncode(data);
    AsciiTokenLength(Base64Url.Encode(data));
  }

  /** Every issued token is 128 characters long. */
  lemma SignedTokenLength(key: string, value: Secret, hmac: Mac)
    ensures |SignedToken(key, value, hmac)| == SerializedLength
    ensures Utf8.ByteLength(SignedToken(key, value, hmac)) == SerializedLength
  {
    EncodedCookie(value + hmac(Utf8.Encode(key), value));
  }

  /** An issued token passes every check and yields back its secret. */
  lemma CheckSigned(key: string, value: Secret, hmac: Mac)
    ensures Check(SignedToken(key, value, hmac), key, hmac) == Valid(value)
  {
    var data := value + hmac(Utf8.Encode(key), value);
    SignedTokenLength(key, value, hmac);
    Base64Url.DecodeEncode(data);
    assert data[..SignatureStartIndex] == value;
  }

  /** Only issued tokens are accepted: a token that passes the checks is exactly the
      token issued for the secret it yields. */
  lemma CheckedIsSigned(token: string, key: string, hmac: Mac)
    requires Check(token, key, hmac).Valid?
    ensures token == SignedToken(key, Check(token, key, hmac).value, hmac)
  {
    var data := Base64Url.Decode(token).value;
    Base64Url.EncodeDecode(token);
    assert data == data[..SignatureStartIndex] + data[SignatureStartIndex..];
  }

  /** A token built from a secret and any tag other than its HMAC is refused. */
  lemma ForgedTagRejected(key: string, value: Secret, tag: Digest, hmac: Mac)
    requires tag != hmac(Utf8.Encode(key), value)
    ensures Check(Base64Url.Encode(value + tag), key, hmac) == BadSignature
  {
    var data := value + tag;
    EncodedCookie(data);
    assert data[..SignatureStartIndex] == value && data[SignatureStartIndex..] == tag;
  }

  /** The cookie settings of both copies: the cookie domain, the signing key and
      whether the cookie is Secure. */
  datatype CookieSettings = CookieSettings(domain: string, key: string, secure: bool)

  /** The Set-Cookie carrying a session secret: the signed token, HttpOnly,
      SameSite=Lax, Path=/, the configured Domain and Secure flag, and the
      session's expiry. */
  function SessionCookie(settings: CookieSettings, secret: Secret, expiry: int, hmac: Mac): Http.Cookie {
    Http.Cookie(CookieName, SignedToken(settings.key, secret, hmac), true, Http.Lax, settings.secure,
                settings.domain, expiry, "/")
  }
}
