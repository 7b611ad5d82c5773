/**
 * Secret envelopes over an ideal authenticated cipher.
 *
 * A sealed box opens under exactly the key and the associated data it was made with, and a
 * key fingerprint determines its key. Strings are sequences of UTF-16 code units; turning
 * one into bytes replaces every unpaired surrogate, and bytes are represented by the Unicode
 * scalar values they encode.
 */
module Envelope {
  import opened Prelude
  import Utf8

  type CodeUnit = u: nat | u < 0x10000

  type Text = seq<CodeUnit>

  type Scalars = seq<nat>

  predicate IsHigh(u: nat) {
    0xD800 <= u <= 0xDBFF
  }

  predicate IsLow(u: nat) {
    0xDC00 <= u <= 0xDFFF
  }

  /** What a string becomes as UTF-8 bytes. */
  function Encode(text: Text): (s: Scalars)
    ensures forall i :: 0 <= i < |s| ==> s[i] <= 0x10FFFF && !IsHigh(s[i]) && !IsLow(s[i])
  {
    if text == [] then []
    else if IsHigh(text[0]) && |text| > 1 && IsLow(text[1])
    then [0x10000 + (text[0] - 0xD800) * 0x400 + (text[1] - 0xDC00)] + Encode(text[2..])
    else [if IsHigh(text[0]) || IsLow(text[0]) then Utf8.REPLACEMENT as nat else text[0]] + Encode(text[1..])
  }

  /** The string read back from those bytes. */
  function Decode(s: Scalars): Text
    requires forall i :: 0 <= i < |s| ==> s[i] <= 0x10FFFF
  {
    if s == [] then []
    else if s[0] < 0x10000 then [s[0]] + Decode(s[1..])
    else [0xD800 + (s[0] - 0x10000) / 0x400, 0xDC00 + (s[0] - 0x10000) % 0x400] + Decode(s[1..])
  }

  /** Every surrogate is half of a high-low pair. */
  predicate WellFormed(text: Text) {
    if text == [] then true
    else if IsHigh(text[0]) then |text| > 1 && IsLow(text[1]) && WellFormed(text[2..])
    else !IsLow(text[0]) && WellFormed(text[1..])
  }

  /** A string as it survives a trip through bytes. */
  function Stored(text: Text): Text {
    Decode(Encode(text))
  }

  /** A string survives storage unchanged if and only if it has no unpaired surrogate. */
  lemma {:induction false} StoredExactly(text: Text)
    ensures |Stored(text)| == |text|
    ensures Stored(text) == text <==> WellFormed(text)
  {
    if text != [] {
      var s := Encode(text);
      if IsHigh(text[0]) && |text| > 1 && IsLow(text[1]) {
        StoredExactly(text[2..]);
        assert s[1..] == Encode(text[2..]);
        assert Stored(text) == text[..2] + Stored(text[2..]);
        assert text == text[..2] + text[2..];
        assert Stored(text)[2..] == Stored(text[2..]);
      } else {
        StoredExactly(text[1..]);
        assert s[1..] == Encode(text[1..]);
        assert Stored(text) == [s[0]] + Stored(text[1..]);
        assert text == [text[0]] + text[1..];
        assert Stored(text)[1..] == Stored(text[1..]);
      }
    }
  }

  // ---- the ideal cipher ---------------------------------------------------------------------

  type Key = nat

  datatype KeyId = Fingerprint(key: Key)

  /** Bytes no key opens are `Junk`, whatever corrupted them. */
  datatype Box<+B> = Box(key: Key, aad: Scalars, body: B) | Junk

  function Unbox<B>(key: Key, aad: Scalars, box: Box<B>): Option<B> {
    if box.Box? && box.key == key && box.aad == aad then Some(box.body) else None
  }

  datatype Envelope = Envelope(
    version: int,
    algorithm: string,
    keyId: KeyId,
    wrapped: Box<Key>,
    payload: Box<Scalars>)

  datatype CryptoError = SecretCorrupt

  const VERSION := 1
  const ALGORITHM := "aes-256-gcm"
  const FRAME: nat := 1

  /** "bayz:v1:" in front of the name binds an envelope to it. */
  function AadFor(name: Scalars): Scalars {
    [98, 97, 121, 122, 58, 118, 49, 58] + name
  }

  predicate WellShaped(e: Envelope) {
    e.version == VERSION && e.algorithm == ALGORITHM
  }

  /** `name` is the encoded name, as both the row key and the associated data carry it. */
  function SealSecret(kek: Key, name: Scalars, text: Text, dek: Key): Envelope {
    Envelope(VERSION, ALGORITHM, Fingerprint(kek), Box(kek, AadFor(name), dek),
             Box(dek, AadFor(name), [FRAME] + Encode(text)))
  }

  function OpenSecret(kek: Key, name: Scalars, e: Envelope): Result<Text, CryptoError> {
    if !WellShaped(e) then Err(SecretCorrupt)
    else
      match Unbox(kek, AadFor(name), e.wrapped)
      case None => Err(SecretCorrupt)
      case Some(dek) =>
        match Unbox(dek, AadFor(name), e.payload)
        case None => Err(SecretCorrupt)
        case Some(framed) =>
          if |framed| < 1 || framed[0] != FRAME || !(forall i :: 0 <= i < |framed| ==> framed[i] <= 0x10FFFF)
          then Err(SecretCorrupt)
          else Ok(Decode(framed[1..]))
  }

  function RewrapEnvelope(oldKek: Key, newKek: Key, name: Scalars, e: Envelope): Result<Envelope, CryptoError> {
    if !WellShaped(e) then Err(SecretCorrupt)
    else
      match Unbox(oldKek, AadFor(name), e.wrapped)
      case None => Err(SecretCorrupt)
      case Some(dek) => Ok(e.(keyId := Fingerprint(newKek), wrapped := Box(newKek, AadFor(name), dek)))
  }

  lemma AadIsInjective(a: Scalars, b: Scalars)
    ensures AadFor(a) == AadFor(b) <==> a == b
    ensures AadFor(a) == seq(8, i requires 0 <= i < 8 => "bayz:v1:"[i] as nat) + a
  {
    assert AadFor(a)[8..] == a && AadFor(b)[8..] == b;
  }

  /**
   * Whatever an envelope is, it opens if and only if it is of our version and algorithm, its data
   * key is wrapped under this key for this name, and its content is sealed under that data key for
   * the same name and framed. Rewrapping looks at no more than the first two.
   */
  lemma OpensExactly(kek: Key, newKek: Key, name: Scalars, e: Envelope)
    ensures RewrapEnvelope(kek, newKek, name, e).Ok?
       <==> && e.version == 1 && e.algorithm == "aes-256-gcm"
            && e.wrapped.Box? && e.wrapped.key == kek && e.wrapped.aad == AadFor(name)
    ensures OpenSecret(kek, name, e).Ok?
       <==> && RewrapEnvelope(kek, newKek, name, e).Ok?
            && e.payload.Box? && e.payload.key == e.wrapped.body && e.payload.aad == AadFor(name)
            && [1] <= e.payload.body && forall u :: u in e.payload.body ==> u <= 0x10FFFF
    ensures OpenSecret(kek, name, e).Ok? ==> OpenSecret(kek, name, e).value == Decode(e.payload.body[1..])
  {
    if e.payload.Box? {
      assert forall i :: 0 <= i < |e.payload.body| ==> e.payload.body[i] in e.payload.body;
    }
  }

  /**
   * A sealed secret opens under its own key and name and under no others, to the text as
   * stored: the empty string included, and the written text itself exactly when it is well
   * formed.
   */
  lemma OpenAfterSeal(kek: Key, name: Scalars, text: Text, dek: Key, otherKek: Key, otherName: Scalars)
    ensures OpenSecret(otherKek, otherName, SealSecret(kek, name, text, dek))
            == if otherKek == kek && otherName == name then Ok(Stored(text)) else Err(SecretCorrupt)
    ensures OpenSecret(kek, name, SealSecret(kek, name, text, dek)) == Ok(text) <==> WellFormed(text)
  {
    AadIsInjective(name, otherName);
    StoredExactly(text);
    assert ([FRAME] + Encode(text))[1..] == Encode(text);
  }

  /**
   * An envelope sealed for one name never opens under another. As strings: never under
   * another well-formed name, but always under a name that differs only in which unpaired
   * surrogates it has.
   */
  lemma NamesNeverCross(kek: Key, name: Text, other: Text, text: Text, dek: Key)
    ensures OpenSecret(kek, Encode(other), SealSecret(kek, Encode(name), text, dek)).Ok?
            <==> Stored(other) == Stored(name)
    ensures WellFormed(name) && WellFormed(other) ==>
              (OpenSecret(kek, Encode(other), SealSecret(kek, Encode(name), text, dek)).Ok? <==> other == name)
  {
    OpenAfterSeal(kek, Encode(name), text, dek, kek, Encode(other));
    DecodeIsInjective(Encode(name), Encode(other));
    StoredExactly(name);
    StoredExactly(other);
  }

  lemma {:induction false} DecodeIsInjective(a: Scalars, b: Scalars)
    requires forall i :: 0 <= i < |a| ==> a[i] <= 0x10FFFF && !IsHigh(a[i]) && !IsLow(a[i])
    requires forall i :: 0 <= i < |b| ==> b[i] <= 0x10FFFF && !IsHigh(b[i]) && !IsLow(b[i])
    ensures Decode(a) == Decode(b) <==> a == b
  {
    if a != [] && b != [] {
      DecodeIsInjective(a[1..], b[1..]);
      DecodeHead(a);
      DecodeHead(b);
      assert a == [a[0]] + a[1..] && b == [b[0]] + b[1..];
    }
  }

  /** The first one or two units determine the first scalar and leave the rest. */
  lemma DecodeHead(s: Scalars)
    requires s != [] && forall i :: 0 <= i < |s| ==> s[i] <= 0x10FFFF && !IsHigh(s[i]) && !IsLow(s[i])
    ensures Decode(s) != []
    ensures !IsHigh(Decode(s)[0]) ==> s[0] == Decode(s)[0] && Decode(s[1..]) == Decode(s)[1..]
    ensures IsHigh(Decode(s)[0]) ==>
              |Decode(s)| > 1 && Decode(s[1..]) == Decode(s)[2..]
              && s[0] == (Decode(s)[0] as int - 0xD800) * 0x400 + (Decode(s)[1] as int - 0xDC00) + 0x10000
  {
    if s[0] >= 0x10000 {
      var rest := Decode(s[1..]);
      assert Decode(s)[2..] == rest;
    } else {
      assert Decode(s)[1..] == Decode(s[1..]);
    }
  }

  /**
   * Rewrapping keeps the meaning: the ciphertext is untouched, the envelope opens under the
   * new key to what it held under the old, and under no other key. It succeeds exactly when
   * the old key unwraps the data key.
   */
  lemma RewrapKeepsMeaning(oldKek: Key, newKek: Key, name: Scalars, e: Envelope)
    ensures var r := RewrapEnvelope(oldKek, newKek, name, e);
            && (OpenSecret(oldKek, name, e).Ok? ==> r.Ok?)
            && (r.Ok? ==>
                  && r.value.payload == e.payload
                  && r.value.keyId == Fingerprint(newKek)
                  && OpenSecret(newKek, name, r.value) == OpenSecret(oldKek, name, e)
                  && RewrapEnvelope(newKek, oldKek, name, r.value) == Ok(e.(keyId := Fingerprint(oldKek)))
                  && forall k, n :: OpenSecret(k, n, r.value).Ok? ==> k == newKek && n == name)
  {
    forall n ensures AadFor(n) == AadFor(name) <==> n == name {
      AadIsInjective(n, name);
    }
  }
}
