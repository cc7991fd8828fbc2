/** The two cryptographic collaborators, reduced to their contracts.

    bcrypt: `hash` draws a fresh salt, so two hashes of one password differ,
    yet `compare` accepts a password exactly when it agrees with the hashed
    one on the first 72 bytes, the only part of a password bcrypt reads.
    The salt is a parameter here, characters stand in for bytes, and the
    stored key is that 72-byte prefix itself (one-wayness and the work
    factor are not modelled).

    jsonwebtoken: `sign` binds a claim set to a secret; `verify` gives the
    claims back only under the same secret and an untampered signature. */
module Credentials {
  import opened Wrappers

  /** The number of leading bytes of a password bcrypt reads. */
  const MaxKeyLength := 72

  /** The part of a password that bcrypt hashes. */
  function Key(password: string): (k: string)
    ensures |k| <= MaxKeyLength
    ensures k <= password
    ensures |password| <= MaxKeyLength ==> k == password
    ensures |password| > MaxKeyLength ==> |k| == MaxKeyLength
  {
    if |password| <= MaxKeyLength then password else password[..MaxKeyLength]
  }

  datatype PasswordHash = PasswordHash(salt: nat, key: string)

  /** bcrypt.compare: an accepted password starts with the stored key, and
      a password of at most 72 bytes is accepted only if it is the key. */
  predicate Compare(password: string, h: PasswordHash): (accepted: bool)
    ensures accepted ==> h.key <= password && |h.key| <= MaxKeyLength
    ensures |password| <= MaxKeyLength ==> (accepted <==> h.key == password)
    ensures |password| > MaxKeyLength ==> (accepted <==> h.key == password[..MaxKeyLength])
  {
    Key(password) == h.key
  }

  /** bcrypt.hash with the salt drawn by the caller. */
  function Hash(password: string, salt: nat): (h: PasswordHash)
    ensures forall other :: Compare(other, h) <==> Key(other) == Key(password)
    ensures h.salt == salt
  {
    PasswordHash(salt, Key(password))
  }

  /** Among passwords of at most 72 bytes, a hash accepts the hashed one and
      no other. */
  lemma ShortPasswordsExact(password: string, other: string, salt: nat)
    requires |password| <= MaxKeyLength && |other| <= MaxKeyLength
    ensures Compare(other, Hash(password, salt)) <==> other == password
  {
  }

  /** Past the 72nd byte bcrypt reads nothing: two passwords sharing a
      72-byte prefix are accepted for each other, whatever follows it. */
  lemma LongPasswordsCollide(prefix: string, tail1: string, tail2: string, salt: nat)
    requires |prefix| == MaxKeyLength
    ensures Compare(prefix + tail1, Hash(prefix + tail2, salt))
  {
    assert (prefix + tail1)[..MaxKeyLength] == prefix;
    assert (prefix + tail2)[..MaxKeyLength] == prefix;
  }

  /** The payload of a token: `{username}` plus the issue time jsonwebtoken adds. */
  datatype Claims = Claims(username: string, iat: nat)

  datatype Signature = Signature(key: string, signed: Claims)

  datatype Token = Token(claims: Claims, signature: Signature)

  /** jwt.sign */
  function Sign(secret: string, claims: Claims): (t: Token)
    ensures t.claims == claims
    ensures Verify(secret, t) == Some(claims)
    ensures forall other :: other != secret ==> Verify(other, t) == None
  {
    Token(claims, Signature(secret, claims))
  }

  /** jwt.verify: the claims of a token signed with `secret`, or nothing. */
  function Verify(secret: string, t: Token): (r: Option<Claims>)
    ensures r.Some? ==> r.value == t.claims
    ensures r.Some? ==> t.signature.key == secret && t.signature.signed == t.claims
  {
    if t.signature == Signature(secret, t.claims) then Some(t.claims) else None
  }

  /** A signed token verifies to its own claims under the signing secret and
      under no other secret; a token whose claims were altered after signing
      does not verify. */
  lemma SignVerify(secret: string, other: string, claims: Claims, forged: Claims)
    ensures Verify(secret, Sign(secret, claims)) == Some(claims)
    ensures other != secret ==> Verify(other, Sign(secret, claims)) == None
    ensures forged != claims ==> Verify(secret, Token(forged, Sign(secret, claims).signature)) == None
  {
  }
}
