/** The dotted signed token: HASH_METHOD.HASH.SALT.SIGN_METHOD.SIGNATURE. */
module Tokens {
  import opened Prelude
  import opened Strings
  import Base64

  /** The DER form and the method name a verifying key reports. */
  datatype VerifyingKey = VerifyingKey(der: seq<byte>, signatureMethod: string)

  type PrivateKey = seq<byte>

  /** The hash and the signature scheme, known only by the law that a signature verifies. */
  datatype Crypto = Crypto(
    sha256: seq<byte> -> seq<byte>,
    publicKey: PrivateKey -> VerifyingKey,
    sign: (PrivateKey, seq<byte>) -> seq<byte>,
    verify: (VerifyingKey, seq<byte>, seq<byte>) -> bool)
  {
    ghost predicate Lawful() {
      && (forall key: PrivateKey :: publicKey(key).signatureMethod == "ed25519")
      && (forall key: PrivateKey, digest :: verify(publicKey(key), digest, sign(key, digest)))
    }
  }

  /** `Panicked` is the out-of-range slice of a token with fewer than five parts. */
  datatype TokenVerdict = Accepted | Rejected | Panicked

  function TokenParts(c: Crypto, key: PrivateKey, salt: seq<byte>): (parts: seq<string>)
    ensures |parts| == 5 && forall i :: 0 <= i < 5 ==> '.' !in parts[i]
  {
    var digest := c.sha256(c.publicKey(key).der + salt);
    ["sha256", Base64.Encode(digest), Base64.Encode(salt), "ed25519", Base64.Encode(c.sign(key, digest))]
  }

  function Generate(c: Crypto, key: PrivateKey, salt: seq<byte>): string {
    Join(TokenParts(c, key, salt), '.')
  }

  function Verify(c: Crypto, key: VerifyingKey, token: string, verifySalt: seq<byte> -> TokenVerdict): TokenVerdict {
    var parts := Split(token, '.');
    if |parts| < 5 then Panicked
    else if parts[0] != "sha256" then Rejected
    else if parts[3] != key.signatureMethod then Rejected
    else
      match Base64.Decode(parts[2])
      case None => Rejected
      case Some(salt) =>
        if verifySalt(salt) != Accepted then verifySalt(salt)
        else
          var digest := c.sha256(key.der + salt);
          if Base64.Encode(digest) != parts[1] then Rejected
          else
            match Base64.Decode(parts[4])
            case None => Rejected
            case Some(signature) => if c.verify(key, digest, signature) then Accepted else Rejected
  }

  function VerifyNonce(c: Crypto, key: VerifyingKey, token: string, nonce: seq<byte>): TokenVerdict {
    Verify(c, key, token, (salt: seq<byte>) => if salt != nonce then Rejected else Accepted)
  }

  function ExtractSignatureIdentifier(token: string): Option<string> {
    var parts := Split(token, '.');
    if |parts| > 3 then Some(parts[3]) else None
  }

  // ----- Nonce tokens

  /** What acceptance means, without decoding anything. */
  ghost predicate Binds(c: Crypto, key: VerifyingKey, parts: seq<string>, nonce: seq<byte>) {
    && |parts| >= 5
    && parts[0] == "sha256"
    && parts[1] == Base64.Encode(c.sha256(key.der + nonce))
    && parts[2] == Base64.Encode(nonce)
    && parts[3] == key.signatureMethod
    && exists signature :: parts[4] == Base64.Encode(signature) && c.verify(key, c.sha256(key.der + nonce), signature)
  }

  lemma AcceptedExactlyWhenBound(c: Crypto, key: VerifyingKey, token: string, nonce: seq<byte>)
    ensures VerifyNonce(c, key, token, nonce) == Accepted <==> Binds(c, key, Split(token, '.'), nonce)
  {
    var parts := Split(token, '.');
    if |parts| >= 5 {
      Base64.Canonical(parts[2], nonce);
      var digest := c.sha256(key.der + nonce);
      if VerifyNonce(c, key, token, nonce) == Accepted {
        Base64.Canonical(parts[4], Base64.Decode(parts[4]).value);
      }
      if Binds(c, key, parts, nonce) {
        var signature :| parts[4] == Base64.Encode(signature) && c.verify(key, digest, signature);
        Base64.Canonical(parts[4], signature);
      }
    }
  }

  /** What is printed, part by part. */
  lemma PrintedToken(c: Crypto, key: PrivateKey, salt: seq<byte>)
    ensures var digest := c.sha256(c.publicKey(key).der + salt);
            Split(Generate(c, key, salt), '.')
            == ["sha256", Base64.Encode(digest), Base64.Encode(salt), "ed25519", Base64.Encode(c.sign(key, digest))]
  {
    SplitJoin(TokenParts(c, key, salt), '.');
  }

  /** A printed token is accepted under its own key for its own salt and for no other. */
  lemma NonceRoundTrip(c: Crypto, key: PrivateKey, salt: seq<byte>, nonce: seq<byte>)
    requires c.Lawful()
    ensures VerifyNonce(c, c.publicKey(key), Generate(c, key, salt), nonce)
            == if nonce == salt then Accepted else Rejected
  {
    var parts := TokenParts(c, key, salt);
    SplitJoin(parts, '.');
    Base64.RoundTrip(salt);
    var digest := c.sha256(c.publicKey(key).der + salt);
    Base64.RoundTrip(c.sign(key, digest));
  }

  /** Of any token with three dots or more, the fourth part is taken for the signature method. */
  lemma IdentifierExactly(parts: seq<string>)
    requires parts != [] && forall i :: 0 <= i < |parts| ==> '.' !in parts[i]
    ensures ExtractSignatureIdentifier(Join(parts, '.')) == if |parts| > 3 then Some(parts[3]) else None
  {
    SplitJoin(parts, '.');
  }

  lemma IdentifierRoundTrip(c: Crypto, key: PrivateKey, salt: seq<byte>, token: string)
    ensures ExtractSignatureIdentifier(Generate(c, key, salt)) == Some("ed25519")
    ensures ExtractSignatureIdentifier(token).Some? <==> Count(token, '.') >= 3
  {
    SplitJoin(TokenParts(c, key, salt), '.');
    SplitSize(token, '.');
  }

  /** Verification of any nonce panics exactly on tokens with fewer than four dots. */
  lemma PanicsExactlyWhenShort(c: Crypto, key: VerifyingKey, token: string, nonce: seq<byte>)
    ensures VerifyNonce(c, key, token, nonce) == Panicked <==> Count(token, '.') < 4
  {
    SplitSize(token, '.');
  }

  // ----- Timestamp tokens

  const MAX_AGE: u64 := 60 * 60

  function TimestampSalt(stamp: u64): seq<byte> {
    LittleEndian(stamp, 8)
  }

  function GenerateTimestamp(c: Crypto, key: PrivateKey, now: u64): string {
    Generate(c, key, TimestampSalt(now))
  }

  /** `checkedSubtraction` is the build that panics on overflow; the other one wraps around. */
  function VerifyStamp(salt: seq<byte>, now: u64, checkedSubtraction: bool): TokenVerdict {
    if |salt| != 8 then Rejected
    else
      var age := now - LittleEndianValue(salt);
      if age < 0 && checkedSubtraction then Panicked
      else if age % 0x1_0000_0000_0000_0000 > MAX_AGE then Rejected
      else Accepted
  }

  function VerifyTimestamp(c: Crypto, key: VerifyingKey, token: string, now: u64,
                           checkedSubtraction: bool): TokenVerdict
  {
    Verify(c, key, token, (salt: seq<byte>) => VerifyStamp(salt, now, checkedSubtraction))
  }

  /** Its parts name the methods and bind key and salt, whatever the salt says. */
  ghost predicate BindsSalt(c: Crypto, key: VerifyingKey, parts: seq<string>, salt: seq<byte>) {
    && |parts| >= 5 && parts[0] == "sha256" && parts[3] == key.signatureMethod && parts[2] == Base64.Encode(salt)
    && parts[1] == Base64.Encode(c.sha256(key.der + salt))
    && exists signature :: parts[4] == Base64.Encode(signature) && c.verify(key, c.sha256(key.der + salt), signature)
  }

  /** The salt is the eight bytes of a stamp, least significant first. */
  ghost predicate Stamps(salt: seq<byte>, stamp: u64) {
    |salt| == 8 && forall i: nat :: i < 8 ==> salt[i] == stamp / Pow256(i) % 256
  }

  lemma StampsExactly(salt: seq<byte>, stamp: u64)
    ensures Stamps(salt, stamp) <==> |salt| == 8 && LittleEndianValue(salt) == stamp
  {
    Pow256Values();
    LittleEndianRoundTrip(stamp, 8);
    forall i: nat | i < 8 ensures LittleEndian(stamp, 8)[i] == stamp / Pow256(i) % 256 {
      LittleEndianAt(stamp, 8, i);
    }
    if |salt| == 8 {
      LittleEndianCanonical(salt);
    }
    if Stamps(salt, stamp) {
      assert salt == LittleEndian(stamp, 8);
    }
  }

  /** Whatever the token and the key: it is accepted exactly if it binds key and salt, and the salt is an
      eight-byte stamp that the wrapping subtraction, or without wrapping the checked one, finds to be at
      most an hour old. */
  lemma TimestampExactly(c: Crypto, key: VerifyingKey, token: string, now: u64, checkedSubtraction: bool)
    ensures VerifyTimestamp(c, key, token, now, checkedSubtraction) == Accepted <==>
              exists salt, stamp: u64 ::
                && BindsSalt(c, key, Split(token, '.'), salt) && Stamps(salt, stamp)
                && (stamp <= now <= stamp + 3600
                    || (!checkedSubtraction && now + 0x1_0000_0000_0000_0000 <= stamp + 3600))
  {
    var parts := Split(token, '.');
    if |parts| >= 5 && Base64.Decode(parts[2]).Some? {
      var salt := Base64.Decode(parts[2]).value;
      Base64.Canonical(parts[2], salt);
      SaltExactly(c, key, token, salt, now, checkedSubtraction);
      StampAccepted(salt, now, checkedSubtraction);
      forall other | parts[2] == Base64.Encode(other) ensures other == salt {
        Base64.Canonical(parts[2], other);
      }
    } else if |parts| >= 5 {
      forall other ensures parts[2] != Base64.Encode(other) {
        Base64.Canonical(parts[2], other);
      }
    }
  }

  lemma StampAccepted(salt: seq<byte>, now: u64, checkedSubtraction: bool)
    ensures VerifyStamp(salt, now, checkedSubtraction) == Accepted <==>
              exists stamp: u64 ::
                && Stamps(salt, stamp)
                && (stamp <= now <= stamp + 3600
                    || (!checkedSubtraction && now + 0x1_0000_0000_0000_0000 <= stamp + 3600))
  {
    if |salt| == 8 {
      Pow256Values();
      LittleEndianCanonical(salt);
      var mine: u64 := LittleEndianValue(salt);
      StampsExactly(salt, mine);
      forall stamp: u64 | Stamps(salt, stamp) ensures stamp == mine {
        StampsExactly(salt, stamp);
      }
    }
  }

  lemma SaltExactly(c: Crypto, key: VerifyingKey, token: string, salt: seq<byte>, now: u64, checkedSubtraction: bool)
    requires var parts := Split(token, '.'); |parts| >= 5 && Base64.Decode(parts[2]) == Some(salt)
    ensures VerifyTimestamp(c, key, token, now, checkedSubtraction) == Accepted <==>
              BindsSalt(c, key, Split(token, '.'), salt) && VerifyStamp(salt, now, checkedSubtraction) == Accepted
  {
    hide VerifyStamp;
    var parts := Split(token, '.');
    Base64.Canonical(parts[2], salt);
    if Base64.Decode(parts[4]).Some? {
      Base64.Canonical(parts[4], Base64.Decode(parts[4]).value);
    }
    if BindsSalt(c, key, parts, salt) {
      var signature :| parts[4] == Base64.Encode(signature) && c.verify(key, c.sha256(key.der + salt), signature);
      Base64.Canonical(parts[4], signature);
    }
  }

  /** It panics exactly on a token without five parts and, in the checked build, on a future stamp in a
      token that names the right methods. */
  lemma TimestampPanicsExactly(c: Crypto, key: VerifyingKey, token: string, now: u64, checkedSubtraction: bool)
    ensures VerifyTimestamp(c, key, token, now, checkedSubtraction) == Panicked <==>
              var parts := Split(token, '.');
              || |parts| < 5
              || (checkedSubtraction && parts[0] == "sha256" && parts[3] == key.signatureMethod
                  && exists salt, stamp: u64 :: parts[2] == Base64.Encode(salt) && Stamps(salt, stamp) && stamp > now)
  {
    var parts := Split(token, '.');
    if |parts| >= 5 && Base64.Decode(parts[2]).Some? {
      var salt := Base64.Decode(parts[2]).value;
      Base64.Canonical(parts[2], salt);
      forall other | parts[2] == Base64.Encode(other) ensures other == salt {
        Base64.Canonical(parts[2], other);
      }
      if |salt| == 8 {
        Pow256Values();
        LittleEndianCanonical(salt);
        var mine: u64 := LittleEndianValue(salt);
        StampsExactly(salt, mine);
        forall stamp: u64 | Stamps(salt, stamp) ensures stamp == mine {
          StampsExactly(salt, stamp);
        }
      }
    } else if |parts| >= 5 {
      forall other ensures parts[2] != Base64.Encode(other) {
        Base64.Canonical(parts[2], other);
      }
    }
  }

  lemma StampWindow(stamp: u64, now: u64, checkedSubtraction: bool)
    ensures VerifyStamp(TimestampSalt(stamp), now, checkedSubtraction)
            == if stamp > now && checkedSubtraction then Panicked
               else if (now - stamp) % 0x1_0000_0000_0000_0000 <= MAX_AGE then Accepted
               else Rejected
  {
    Pow256Values();
    LittleEndianRoundTrip(stamp, 8);
  }

  /** The wrapping build accepts exactly the last hour; only during the first hour of the
      epoch does the wrap-around also let the very last stamps of the range through. */
  lemma TimestampWindow(c: Crypto, key: PrivateKey, stamp: u64, now: u64)
    requires c.Lawful()
    ensures VerifyTimestamp(c, c.publicKey(key), GenerateTimestamp(c, key, stamp), now, false) == Accepted
            <==> stamp <= now <= stamp + MAX_AGE || now + 0x1_0000_0000_0000_0000 <= stamp + MAX_AGE
    ensures VerifyTimestamp(c, c.publicKey(key), GenerateTimestamp(c, key, stamp), now, false) != Panicked
  {
    hide VerifyTimestamp, GenerateTimestamp;
    TimestampVerdict(c, key, stamp, now, false);
    if stamp > now {
      assert (now - stamp) % 0x1_0000_0000_0000_0000 == now - stamp + 0x1_0000_0000_0000_0000;
    }
  }

  /** In the checked build a stamp from the future panics instead. */
  lemma CheckedTimestampWindow(c: Crypto, key: PrivateKey, stamp: u64, now: u64)
    requires c.Lawful()
    ensures VerifyTimestamp(c, c.publicKey(key), GenerateTimestamp(c, key, stamp), now, true)
            == if stamp > now then Panicked
               else if now <= stamp + MAX_AGE then Accepted else Rejected
  {
    hide VerifyTimestamp, GenerateTimestamp;
    TimestampVerdict(c, key, stamp, now, true);
  }

  lemma TimestampVerdict(c: Crypto, key: PrivateKey, stamp: u64, now: u64, checkedSubtraction: bool)
    requires c.Lawful()
    ensures VerifyTimestamp(c, c.publicKey(key), GenerateTimestamp(c, key, stamp), now, checkedSubtraction)
            == if stamp > now && checkedSubtraction then Panicked
               else if (now - stamp) % 0x1_0000_0000_0000_0000 <= MAX_AGE then Accepted
               else Rejected
  {
    var salt := TimestampSalt(stamp);
    SplitJoin(TokenParts(c, key, salt), '.');
    Base64.RoundTrip(salt);
    var digest := c.sha256(c.publicKey(key).der + salt);
    Base64.RoundTrip(c.sign(key, digest));
    StampWindow(stamp, now, checkedSubtraction);
  }
}
