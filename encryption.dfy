/** Values shielded at rest: an AES-GCM key created once per installation and
    kept in extension storage as base64, and the `enc.v1:<iv>:<cipher>`
    envelope that marks an encrypted string. AES-GCM itself and the random
    source are parameters: `Seal` and `Open` stand for `crypto.subtle.encrypt`
    and `crypto.subtle.decrypt`, `drawn` and `iv` for the random bytes drawn. */
module Encryption {
  import opened Wrappers
  import opened Strings
  import opened Base64

  /** The marker every encrypted string starts with */
  const Prefix: string := "enc.v1:"
  /** Bytes of a generated key (AES-256) */
  const KeyLength: nat := 32
  /** Bytes of the random initialisation vector drawn per encryption */
  const IvLength: nat := 12

  /** `crypto.subtle.encrypt` with AES-GCM: key, iv, plaintext to cipher bytes */
  type Seal = (seq<byte>, seq<byte>, string) -> seq<byte>
  /** `crypto.subtle.decrypt` with AES-GCM; `None` where it rejects */
  type Open = (seq<byte>, seq<byte>, seq<byte>) -> Option<string>

  /** `isEncryptedString(value)`: a string (not null or undefined) that
      starts with the marker */
  predicate IsEncryptedString(value: Option<string>) {
    value.Some? && StartsWith(value.value, Prefix)
  }

  /** The text `encryptString` returns for the drawn iv and the cipher bytes */
  function Envelope(iv: seq<byte>, cipher: seq<byte>): string {
    Prefix + Encode(iv) + ":" + Encode(cipher)
  }

  /** What `decryptString` does with a value before calling AES-GCM */
  datatype Unsealed =
    | PassThrough(text: string)                     // not encrypted: returned as is
    | Sealed(iv: seq<byte>, cipher: seq<byte>)      // both parts decode
    | Malformed                                     // `atob` throws on a part

  /** The parsing half of `decryptString`: the text after the marker up to
      any further marker, split at `:`; a missing part is `undefined`, which
      `atob` reads as the text "undefined". */
  function Unseal(value: string): Unsealed {
    if !IsEncryptedString(Some(value)) then PassThrough(value)
    else
      var parts := Split(value, Prefix);
      var payload := if |parts| >= 2 then parts[1] else Undefined;
      var pieces := Split(payload, ":");
      var ivText := pieces[0];
      var cipherText := if |pieces| >= 2 then pieces[1] else Undefined;
      match (Decode(ivText), Decode(cipherText))
      case (Some(iv), Some(cipher)) => Sealed(iv, cipher)
      case _ => Malformed
  }

  /** `String(undefined)` */
  const Undefined: string := "undefined"

  /** `decryptString(value)` once the key is known; `None` where it rejects */
  function Decrypt(value: string, key: seq<byte>, open: Open): Option<string> {
    match Unseal(value)
    case PassThrough(text) => Some(text)
    case Sealed(iv, cipher) => open(key, iv, cipher)
    case Malformed => None
  }

  // ---------------------------------------------------------------------------
  // The envelope

  /** A string without the marker is handed back unchanged, whatever the key. */
  lemma DecryptPassThrough(value: string, key: seq<byte>, open: Open)
    requires !IsEncryptedString(Some(value))
    ensures Decrypt(value, key, open) == Some(value)
  {
  }

  /** The envelope carries the marker, so it is recognised as encrypted. */
  lemma EnvelopeIsEncrypted(iv: seq<byte>, cipher: seq<byte>)
    ensures IsEncryptedString(Some(Envelope(iv, cipher)))
  {
    var rest := Encode(iv) + ":" + Encode(cipher);
    assert Envelope(iv, cipher) == Prefix + rest;
    assert (Prefix + rest)[..|Prefix|] == Prefix;
  }

  /** Base64 text holds no `.` and no `:`. */
  predicate Base64Text(a: string) {
    forall i :: 0 <= i < |a| ==> IsBase64Char(a[i]) || a[i] == '='
  }

  /** Text without a `.` cannot hold the marker, so splitting on the marker
      leaves the empty text before it and everything after it. */
  lemma MarkerSplit(rest: string)
    requires forall j :: 0 <= j < |rest| ==> rest[j] != '.'
    ensures Split(Prefix + rest, Prefix) == ["", rest]
  {
    var s := Prefix + rest;
    assert Prefix[3] == '.';
    NotContainsForeignChar(rest, Prefix, 3);
    ContainsIff(rest, Prefix);
    assert s[..|Prefix|] == Prefix;
    assert IndexOf(s, Prefix) == Some(0);
    assert s[|Prefix|..] == rest;
    SplitNoOccurrence(rest, Prefix);
  }

  /** The only `:` between two base64 texts is the separator. */
  lemma ColonSplit(a: string, b: string)
    requires Base64Text(a) && Base64Text(b)
    ensures Split(a + ":" + b, ":") == [a, b]
  {
    var rest := a + ":" + b;
    forall j | 0 <= j < |a| ensures !OccursAt(rest, ":", j) {
      assert rest[j..j + 1][0] == a[j];
    }
    forall j ensures !OccursAt(b, ":", j) {
      if 0 <= j && j + 1 <= |b| {
        assert b[j..j + 1][0] == b[j];
      }
    }
    SplitTwo(a, ":", b);
  }

  lemma PayloadHasNoDot(a: string, b: string)
    requires Base64Text(a) && Base64Text(b)
    ensures forall j :: 0 <= j < |a + ":" + b| ==> (a + ":" + b)[j] != '.'
  {
    var rest := a + ":" + b;
    forall j | 0 <= j < |rest| ensures rest[j] != '.' {
      if j < |a| {
        assert rest[j] == a[j];
      } else if j > |a| {
        assert rest[j] == b[j - |a| - 1];
      }
    }
  }

  /** A marker, then two base64 texts joined by `:`, parses into the bytes
      the two texts decode to. */
  lemma UnsealParts(a: string, b: string, iv: seq<byte>, cipher: seq<byte>)
    requires Base64Text(a) && Base64Text(b)
    requires Decode(a) == Some(iv) && Decode(b) == Some(cipher)
    ensures Unseal(Prefix + (a + ":" + b)) == Sealed(iv, cipher)
  {
    var payload := a + ":" + b;
    PayloadHasNoDot(a, b);
    MarkerSplit(payload);
    ColonSplit(a, b);
    assert (Prefix + payload)[..|Prefix|] == Prefix;
  }

  /** Parsing the envelope recovers the iv and the cipher bytes. */
  lemma UnsealEnvelope(iv: seq<byte>, cipher: seq<byte>)
    ensures Unseal(Envelope(iv, cipher)) == Sealed(iv, cipher)
  {
    var a, b := Encode(iv), Encode(cipher);
    EncodedText(iv);
    EncodedText(cipher);
    assert Envelope(iv, cipher) == Prefix + (a + ":" + b);
    UnsealParts(a, b, iv, cipher);
  }

  /** `toBase64` output is base64 text that `fromBase64` reads back. */
  lemma EncodedText(bytes: seq<byte>)
    ensures Base64Text(Encode(bytes)) && Decode(Encode(bytes)) == Some(bytes)
  {
    EncodeAlphabet(bytes);
    DecodeEncode(bytes);
  }

  /** Decrypting what was encrypted under the same key gives the plaintext
      back, provided AES-GCM opens what it sealed. */
  lemma DecryptEncrypted(plaintext: string, key: seq<byte>, iv: seq<byte>, seal: Seal, open: Open)
    requires open(key, iv, seal(key, iv, plaintext)) == Some(plaintext)
    ensures Decrypt(Envelope(iv, seal(key, iv, plaintext)), key, open) == Some(plaintext)
  {
    UnsealEnvelope(iv, seal(key, iv, plaintext));
  }

  /** An encrypted string whose payload has no `:` is rejected: the missing
      cipher text reads as "undefined", which `atob` refuses. */
  lemma MissingCipherIsMalformed(a: string)
    requires Base64Text(a)
    ensures Unseal(Prefix + a) == Malformed
  {
    forall j | 0 <= j < |a| ensures a[j] != '.' {
    }
    MarkerSplit(a);
    assert (Prefix + a)[..|Prefix|] == Prefix;
    forall j ensures !OccursAt(a, ":", j) {
      if 0 <= j && j + 1 <= |a| {
        assert a[j..j + 1][0] == a[j];
      }
    }
    SplitNoOccurrence(a, ":");
    UndefinedIsNotBase64();
  }

  /** `atob(undefined)` throws: nine characters are 1 more than a multiple
      of 4. */
  lemma UndefinedIsNotBase64()
    ensures Decode(Undefined) == None
  {
    var u := Undefined;
    assert |u| == 9;
    forall i | 0 <= i < |u| ensures !IsAsciiWs(u[i]) {
      assert 'a' <= u[i] <= 'z';
    }
    WrongLengthRejected(u);
  }

  /** Text without whitespace whose length is 1 more than a multiple of 4
      is refused by `atob`. */
  lemma WrongLengthRejected(s: string)
    requires forall i :: 0 <= i < |s| ==> !IsAsciiWs(s[i])
    requires |s| % 4 == 1
    ensures Decode(s) == None
  {
    NoWsUnchanged(s);
  }

  // ---------------------------------------------------------------------------
  // The key

  /** A stored value `if (existing?.[STORAGE_KEY])` accepts: a non-empty string */
  predicate Truthy(stored: Option<string>) {
    stored.Some? && stored.value != ""
  }

  /** `crypto.subtle.importKey('raw', …, 'AES-GCM')` accepts 128, 192 and 256
      bit keys only. */
  predicate ImportableAesKey(key: seq<byte>) {
    |key| == 16 || |key| == 24 || |key| == 32
  }

  /** The key bytes `getOrCreateKey` settles on: the cached key, else the
      stored one decoded, else the freshly drawn bytes; `None` where `atob`
      or `importKey` rejects. */
  function KeyFor(cached: Option<seq<byte>>, stored: Option<string>, drawn: seq<byte>): Option<seq<byte>> {
    if cached.Some? then cached
    else if Truthy(stored) then
      match Decode(stored.value)
      case Some(k) => if ImportableAesKey(k) then Some(k) else None
      case None => None
    else if ImportableAesKey(drawn) then Some(drawn)
    else None
  }

  /** The stored value after `getOrCreateKey`: written only when no usable
      value was there and the cache was empty */
  function StoredAfter(cached: Option<seq<byte>>, stored: Option<string>, drawn: seq<byte>): Option<string> {
    if cached.None? && !Truthy(stored) then Some(Encode(drawn)) else stored
  }

  /** A generated key is 32 bytes, is what gets stored (as base64), and a
      later start-up with an empty cache reads the very same key back. */
  lemma GeneratedKeyIsReused(stored: Option<string>, drawn: seq<byte>, later: seq<byte>)
    requires !Truthy(stored) && |drawn| == KeyLength
    ensures KeyFor(None, stored, drawn) == Some(drawn)
    ensures KeyFor(None, StoredAfter(None, stored, drawn), later) == Some(drawn)
  {
    DecodeEncode(drawn);
    EncodeLength(drawn);
  }

  /** Once a key is cached, every later call returns it and stores nothing. */
  lemma CachedKeyIsStable(key: seq<byte>, stored: Option<string>, drawn: seq<byte>)
    ensures KeyFor(Some(key), stored, drawn) == Some(key)
    ensures StoredAfter(Some(key), stored, drawn) == stored
  {
  }

  /** The installation's key material: the module-level cache and the
      extension storage slot under `sf_encryption_key_v1` */
  class KeyStore {
    /** `cachedCryptoKey`, as the raw bytes it was imported from */
    var cached: Option<seq<byte>>
    /** `chrome.storage.local[STORAGE_KEY]` */
    var stored: Option<string>

    constructor(stored: Option<string>)
      ensures this.cached == None && this.stored == stored
    {
      this.cached := None;
      this.stored := stored;
    }

    /** `getOrCreateKey()`, with `drawn` the 32 random bytes it would draw */
    method GetOrCreateKey(drawn: seq<byte>) returns (key: Option<seq<byte>>)
      requires |drawn| == KeyLength
      modifies this
      ensures key == KeyFor(old(cached), old(stored), drawn)
      ensures stored == StoredAfter(old(cached), old(stored), drawn)
      ensures cached == (if key.Some? then key else old(cached))
    {
      if cached.Some? {
        return cached;
      }
      var keyBytes: seq<byte>;
      if stored.Some? && stored.value != "" {
        var decoded := Decode(stored.value);
        if decoded.None? {
          return None;
        }
        keyBytes := decoded.value;
      } else {
        keyBytes := drawn;
        stored := Some(Encode(keyBytes));
      }
      if !ImportableAesKey(keyBytes) {
        return None;
      }
      cached := Some(keyBytes);
      key := cached;
    }

    /** `encryptString(plaintext)`, with `drawn` the bytes a first key would
        take and `iv` the 12 random bytes drawn; `None` where the key cannot
        be had */
    method EncryptString(plaintext: string, drawn: seq<byte>, iv: seq<byte>, seal: Seal) returns (r: Option<string>)
      requires |drawn| == KeyLength && |iv| == IvLength
      modifies this
      ensures var key := KeyFor(old(cached), old(stored), drawn);
        r == (if key.Some? then Some(Envelope(iv, seal(key.value, iv, plaintext))) else None)
      ensures stored == StoredAfter(old(cached), old(stored), drawn)
      ensures var key := KeyFor(old(cached), old(stored), drawn);
        cached == (if key.Some? then key else old(cached))
      ensures r.Some? ==> IsEncryptedString(r)
    {
      var key := GetOrCreateKey(drawn);
      if key.None? {
        return None;
      }
      var cipher := seal(key.value, iv, plaintext);
      var text := Prefix + Encode(iv) + ":" + Encode(cipher);
      EnvelopeIsEncrypted(iv, cipher);
      r := Some(text);
    }

    /** `decryptString(value)`: a value without the marker comes back before
        the key is even looked up; `None` where a step rejects */
    method DecryptString(value: string, drawn: seq<byte>, open: Open) returns (r: Option<string>)
      requires |drawn| == KeyLength
      modifies this
      ensures !IsEncryptedString(Some(value)) ==> r == Some(value) && cached == old(cached) && stored == old(stored)
      ensures IsEncryptedString(Some(value)) ==>
        var key := KeyFor(old(cached), old(stored), drawn);
        r == (if key.Some? then Decrypt(value, key.value, open) else None)
      ensures IsEncryptedString(Some(value)) ==> stored == StoredAfter(old(cached), old(stored), drawn)
      ensures IsEncryptedString(Some(value)) ==>
        var key := KeyFor(old(cached), old(stored), drawn);
        cached == (if key.Some? then key else old(cached))
    {
      if !IsEncryptedString(Some(value)) {
        return Some(value);
      }
      var key := GetOrCreateKey(drawn);
      if key.None? {
        return None;
      }
      match Unseal(value)
      case Sealed(iv, cipher) => r := open(key.value, iv, cipher);
      case _ => r := None;
    }
  }
}
