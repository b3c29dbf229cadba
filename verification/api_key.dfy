/**
 * The bearer API-key registry and its guards (src/middleware/apiKey.ts).
 *
 * The module-level `Map` becomes the `entries` field of `ApiKeyRegistry`, a
 * sequence of key/record pairs in insertion order, which is the order in
 * which `Map.entries()` visits them. bcrypt becomes the registry's `hash`
 * function; the random bytes and the clock reading are parameters.
 */
module ApiKey {
  import opened Text
  import opened Encoding
  import opened Auth

  // ---------------------------------------------------------------------------
  // key format

  const KeyPrefix: string := "fameliza_"

  /** `crypto.randomBytes(32)` */
  const RandomByteCount: nat := 32

  /** `fameliza_${random.toString("hex")}` */
  function FormatKey(random: seq<byte>): (key: string)
    ensures |key| == |KeyPrefix| + 2 * |random|
    ensures StartsWith(key, KeyPrefix)
    ensures forall i :: |KeyPrefix| <= i < |key| ==> IsHexDigit(key[i])
  {
    KeyPrefix + Hex(random)
  }

  /** The random bytes a well-formed key was made from. */
  function ParseKey(key: string): Option<seq<byte>>
  {
    if StartsWith(key, KeyPrefix) then Unhex(key[|KeyPrefix|..]) else None
  }

  /** A key gives back exactly the random bytes it was made from... */
  lemma KeyRoundTrip(random: seq<byte>)
    ensures ParseKey(FormatKey(random)) == Some(random)
  {
    assert FormatKey(random)[|KeyPrefix|..] == Hex(random);
    UnhexHex(random);
  }

  /** ...and every string that parses is the key of what it parses to. */
  lemma ParsedKeyIsFormatted(key: string, random: seq<byte>)
    requires ParseKey(key) == Some(random)
    ensures FormatKey(random) == key
  {
    HexUnhex(key[|KeyPrefix|..], random);
    assert key == KeyPrefix + key[|KeyPrefix|..];
  }

  /** An issued key is 73 characters: the prefix and 64 hex digits. */
  lemma IssuedKeyLength(random: seq<byte>)
    requires |random| == RandomByteCount
    ensures |FormatKey(random)| == 73
  {
  }

  // ---------------------------------------------------------------------------
  // records and the registry contents

  /** `ApiKeyRecord`; the dates are clock readings. */
  datatype ApiKeyRecord = ApiKeyRecord(
    keyHash: string,
    userId: Option<string>,
    createdAt: nat,
    lastUsed: Option<nat>)

  /** One entry of the `apiKeys` map: the plaintext key and its record. */
  datatype Entry = Entry(key: string, record: ApiKeyRecord)

  predicate HasKey(es: seq<Entry>, key: string)
  {
    exists i :: 0 <= i < |es| && es[i].key == key
  }

  predicate DistinctKeys(es: seq<Entry>)
  {
    forall i, j :: 0 <= i < j < |es| ==> es[i].key != es[j].key
  }

  /**
   * `Map.set(key, rec)`: an existing key keeps its place and takes the new
   * record; a new key is added last. Nothing else changes.
   */
  function Put(es: seq<Entry>, key: string, rec: ApiKeyRecord): (r: seq<Entry>)
    requires DistinctKeys(es)
    ensures DistinctKeys(r) && HasKey(r, key)
    ensures HasKey(es, key) ==> |r| == |es|
    ensures !HasKey(es, key) ==> |r| == |es| + 1 && r[|es|] == Entry(key, rec)
    ensures forall i :: 0 <= i < |es| ==> r[i] == if es[i].key == key then Entry(key, rec) else es[i]
  {
    if es == [] then
      var r := [Entry(key, rec)];
      assert r[0].key == key;
      r
    else if es[0].key == key then
      var r := [Entry(key, rec)] + es[1..];
      assert r[0].key == key;
      r
    else
      var rest := Put(es[1..], key, rec);
      assert forall i :: 1 <= i < |es| ==> es[1..][i - 1] == es[i];
      var r := [es[0]] + rest;
      assert HasKey(r, key) by {
        var j :| 0 <= j < |rest| && rest[j].key == key;
        assert r[j + 1] == rest[j];
      }
      r
  }

  /** The stored key `key` has the record that bcrypt-compares true against it. */
  predicate Consistent(hash: string -> string, es: seq<Entry>)
  {
    forall i :: 0 <= i < |es| ==> es[i].record.keyHash == hash(es[i].key)
  }

  /** `bcrypt.compare(candidate, rec.keyHash)`, over the whole candidate. */
  predicate Matches(hash: string -> string, candidate: string, rec: ApiKeyRecord)
  {
    rec.keyHash == hash(candidate)
  }

  predicate HasMatch(hash: string -> string, es: seq<Entry>, candidate: string)
  {
    exists i :: 0 <= i < |es| && Matches(hash, candidate, es[i].record)
  }

  /** Entry `i` is the first one, in insertion order, that the candidate matches. */
  predicate IsFirstMatch(hash: string -> string, es: seq<Entry>, candidate: string, i: int)
  {
    && 0 <= i < |es|
    && Matches(hash, candidate, es[i].record)
    && forall j :: 0 <= j < i ==> !Matches(hash, candidate, es[j].record)
  }

  /** Where the `for ... of apiKeys.entries()` scan stops, if it stops early. */
  function FirstMatch(hash: string -> string, es: seq<Entry>, candidate: string): (r: Option<nat>)
    ensures r.Some? <==> HasMatch(hash, es, candidate)
    ensures r.Some? ==> IsFirstMatch(hash, es, candidate, r.value)
  {
    if es == [] then None
    else if Matches(hash, candidate, es[0].record) then Some(0)
    else
      match FirstMatch(hash, es[1..], candidate)
      case None =>
        assert forall i :: 1 <= i < |es| ==> es[i] == es[1..][i - 1];
        None
      case Some(i) =>
        assert forall j :: 1 <= j < |es| ==> es[j] == es[1..][j - 1];
        Some(i + 1)
  }

  /** Only one entry can be the first match. */
  lemma FirstMatchUnique(hash: string -> string, es: seq<Entry>, candidate: string, i: int, j: int)
    requires IsFirstMatch(hash, es, candidate, i) && IsFirstMatch(hash, es, candidate, j)
    ensures i == j
  {
  }

  /** A record after `record.lastUsed = now`. */
  function Stamp(e: Entry, now: nat): Entry
  {
    Entry(e.key, e.record.(lastUsed := Some(now)))
  }

  /**
   * The registry after `validateApiKey(candidate)` at clock reading `now`:
   * without a match nothing changes; otherwise the first matching entry,
   * and no other, gets `lastUsed := now`.
   */
  function AfterValidate(hash: string -> string, es: seq<Entry>, candidate: string, now: nat): (r: seq<Entry>)
    ensures |r| == |es|
    ensures !HasMatch(hash, es, candidate) ==> r == es
    ensures forall i :: 0 <= i < |es| ==>
              r[i] == if IsFirstMatch(hash, es, candidate, i) then Stamp(es[i], now) else es[i]
  {
    match FirstMatch(hash, es, candidate)
    case None => es
    case Some(i) =>
      assert forall j :: 0 <= j < |es| && IsFirstMatch(hash, es, candidate, j) ==> j == i by {
        forall j | 0 <= j < |es| && IsFirstMatch(hash, es, candidate, j) ensures j == i {
          FirstMatchUnique(hash, es, candidate, i, j);
        }
      }
      es[i := Stamp(es[i], now)]
  }

  /** Validation only stamps `lastUsed`: keys, hashes, owners and creation times stay. */
  lemma {:induction false} ValidateKeepsRecords(hash: string -> string, es: seq<Entry>, candidate: string, now: nat)
    ensures var r := AfterValidate(hash, es, candidate, now);
      forall i :: 0 <= i < |es| ==>
        && r[i].key == es[i].key
        && r[i].record.keyHash == es[i].record.keyHash
        && r[i].record.userId == es[i].record.userId
        && r[i].record.createdAt == es[i].record.createdAt
  {
    var r := AfterValidate(hash, es, candidate, now);
    forall i | 0 <= i < |es|
      ensures r[i].key == es[i].key && r[i].record.keyHash == es[i].record.keyHash
      ensures r[i].record.userId == es[i].record.userId && r[i].record.createdAt == es[i].record.createdAt
    {
      assert r[i] == if IsFirstMatch(hash, es, candidate, i) then Stamp(es[i], now) else es[i];
    }
  }

  /** Stored keys always validate: `generateApiKey` then `validateApiKey` answers true. */
  lemma StoredKeyMatches(hash: string -> string, es: seq<Entry>, key: string)
    requires Consistent(hash, es) && HasKey(es, key)
    ensures HasMatch(hash, es, key)
  {
    var i :| 0 <= i < |es| && es[i].key == key;
    assert Matches(hash, key, es[i].record);
  }

  /** A hash that tells every two strings apart. */
  ghost predicate Injective(hash: string -> string)
  {
    forall a, b :: hash(a) == hash(b) ==> a == b
  }

  /** With a collision-free hash only stored keys validate. */
  lemma MatchIsStoredKey(hash: string -> string, es: seq<Entry>, candidate: string)
    requires Consistent(hash, es) && Injective(hash)
    requires HasMatch(hash, es, candidate)
    ensures HasKey(es, candidate)
  {
    var i :| 0 <= i < |es| && Matches(hash, candidate, es[i].record);
    assert hash(candidate) == hash(es[i].key);
  }

  // ---------------------------------------------------------------------------
  // the Authorization header

  const BearerPrefix: string := "Bearer "

  /**
   * `authHeader && authHeader.startsWith("Bearer ") ? authHeader.substring(7) : none`:
   * the candidate is what follows the seven-character prefix.
   */
  function BearerToken(header: Option<string>): (token: Option<string>)
    ensures token.Some? <==> header.Some? && StartsWith(header.value, BearerPrefix)
    ensures token.Some? ==> header.value == BearerPrefix + token.value
  {
    match header
    case Some(h) =>
      if StartsWith(h, BearerPrefix) then
        assert h == h[..|BearerPrefix|] + h[|BearerPrefix|..];
        Some(h[|BearerPrefix|..])
      else None
    case None => None
  }

  /** `Bearer <k>` yields exactly `k`. */
  lemma BearerRoundTrip(k: string)
    ensures BearerToken(Some(BearerPrefix + k)) == Some(k)
  {
    assert (BearerPrefix + k)[..|BearerPrefix|] == BearerPrefix;
    assert (BearerPrefix + k)[|BearerPrefix|..] == k;
  }

  // ---------------------------------------------------------------------------
  // the registry

  class ApiKeyRegistry {
    /** The one-way function standing for `bcrypt.hash` and `bcrypt.compare`. */
    const hash: string -> string

    /** The `apiKeys` map, in insertion order. */
    var entries: seq<Entry>

    ghost predicate Valid()
      reads this
    {
      DistinctKeys(entries) && Consistent(hash, entries)
    }

    constructor (hash: string -> string)
      ensures Valid()
      ensures this.hash == hash && entries == []
    {
      this.hash := hash;
      entries := [];
    }

    /**
     * `generateApiKey(userId)`: makes the key from the random bytes, stores
     * its record created at `now` and never used, and returns the key, which
     * validates from then on.
     */
    method Generate(userId: Option<string>, random: seq<byte>, now: nat) returns (key: string)
      requires Valid()
      requires |random| == RandomByteCount
      modifies this
      ensures Valid()
      ensures key == FormatKey(random) && |key| == 73
      ensures entries == Put(old(entries), key, ApiKeyRecord(hash(key), userId, now, None))
      ensures HasMatch(hash, entries, key)
    {
      key := KeyPrefix + Hex(random);
      var keyHash := hash(key);
      var before := entries;
      entries := Put(entries, key, ApiKeyRecord(keyHash, userId, now, None));
      forall i | 0 <= i < |entries| ensures entries[i].record.keyHash == hash(entries[i].key) {
        if i < |before| && before[i].key != key {
          assert entries[i] == before[i];
        }
      }
      StoredKeyMatches(hash, entries, key);
    }

    /**
     * `validateApiKey(candidate)`: scans the entries in insertion order and
     * stamps `lastUsed := now` on the first whose hash the candidate matches.
     * The answer is whether any entry matches.
     */
    method Validate(candidate: string, now: nat) returns (ok: bool)
      requires Valid()
      modifies this
      ensures Valid()
      ensures ok <==> HasMatch(hash, old(entries), candidate)
      ensures entries == AfterValidate(hash, old(entries), candidate, now)
    {
      var i := 0;
      while i < |entries|
        invariant 0 <= i <= |entries|
        invariant entries == old(entries)
        invariant forall j :: 0 <= j < i ==> !Matches(hash, candidate, entries[j].record)
      {
        var record := entries[i].record;
        if record.keyHash == hash(candidate) {
          assert IsFirstMatch(hash, entries, candidate, i);
          entries := entries[i := Stamp(entries[i], now)];
          ValidateKeepsRecords(hash, old(entries), candidate, now);
          return true;
        }
        i := i + 1;
      }
      return false;
    }

    /**
     * `requireApiKey`: without a `Bearer ` header it answers 401 and leaves
     * the registry alone; otherwise it validates the key and calls `next`
     * exactly when the key matched.
     */
    method RequireApiKey(req: Request, now: nat) returns (o: Outcome)
      requires Valid()
      modifies this
      ensures Valid()
      ensures BearerToken(req.authorization).None? ==>
                o == Reject(ApiKeyRequired) && entries == old(entries)
      ensures BearerToken(req.authorization).Some? ==>
                var k := BearerToken(req.authorization).value;
                && (o == if HasMatch(hash, old(entries), k) then Next else Reject(InvalidApiKey))
                && entries == AfterValidate(hash, old(entries), k, now)
    {
      var token := BearerToken(req.authorization);
      if token.None? {
        return Reject(ApiKeyRequired);
      }
      var isValid := Validate(token.value, now);
      if !isValid {
        return Reject(InvalidApiKey);
      }
      return Next;
    }

    /**
     * `requireAuthOrApiKey`: an active session passes without touching the
     * registry; otherwise a valid bearer key passes; anything else is 401.
     */
    method RequireAuthOrApiKey(req: Request, now: nat) returns (o: Outcome)
      requires Valid()
      modifies this
      ensures Valid()
      ensures SessionActive(req) ==> o == Next && entries == old(entries)
      ensures !SessionActive(req) && BearerToken(req.authorization).None? ==>
                o == Reject(AuthOrApiKeyRequired) && entries == old(entries)
      ensures !SessionActive(req) && BearerToken(req.authorization).Some? ==>
                var k := BearerToken(req.authorization).value;
                && (o == if HasMatch(hash, old(entries), k) then Next else Reject(AuthOrApiKeyRequired))
                && entries == AfterValidate(hash, old(entries), k, now)
    {
      if SessionActive(req) {
        return Next;
      }
      var token := BearerToken(req.authorization);
      if token.Some? {
        var isValid := Validate(token.value, now);
        if isValid {
          return Next;
        }
      }
      return Reject(AuthOrApiKeyRequired);
    }
  }

  /**
   * `generateApiKey` followed by `validateApiKey` on the key it returned:
   * the key validates and stays stored.
   */
  method GenerateThenValidate(registry: ApiKeyRegistry, userId: Option<string>, random: seq<byte>, issuedAt: nat, usedAt: nat)
    returns (key: string, ok: bool)
    requires registry.Valid()
    requires |random| == RandomByteCount
    modifies registry
    ensures registry.Valid()
    ensures ok && key == FormatKey(random)
    ensures HasKey(registry.entries, key)
  {
    key := registry.Generate(userId, random, issuedAt);
    ghost var issued := registry.entries;
    ok := registry.Validate(key, usedAt);
    ValidateKeepsRecords(registry.hash, issued, key, usedAt);
    assert HasKey(registry.entries, key) by {
      var j :| 0 <= j < |issued| && issued[j].key == key;
      assert registry.entries[j].key == key;
    }
  }

  // ---------------------------------------------------------------------------
  // bcrypt's 72-byte limit

  /** bcrypt digests at most this many bytes of its input and ignores the rest. */
  const BcryptMaxInputBytes: nat := 72

  /** The bytes bcrypt actually digests: the first 72 bytes of the UTF-8 encoding. */
  function BcryptInput(s: string): (bs: seq<byte>)
    ensures |bs| <= BcryptMaxInputBytes
    ensures bs <= Utf8(s)
    ensures |bs| == if |Utf8(s)| < BcryptMaxInputBytes then |Utf8(s)| else BcryptMaxInputBytes
  {
    var b := Utf8(s);
    if |b| <= BcryptMaxInputBytes then b else b[..BcryptMaxInputBytes]
  }

  /** `bcrypt.hash(key, 10)` as the source calls it, over any digest of bcrypt's input. */
  function BcryptHash(digest: seq<byte> -> string, key: string): string
  {
    digest(BcryptInput(key))
  }

  /** `bcrypt.compare(candidate, keyHash)` as the source calls it. */
  predicate BcryptMatches(digest: seq<byte> -> string, candidate: string, keyHash: string)
  {
    keyHash == digest(BcryptInput(candidate))
  }

  /** An issued key with its last hex digit changed: still a well-formed key, but another one. */
  function AlteredKey(key: string): string
    requires |key| == 73
  {
    key[..72] + [if key[72] == '0' then '1' else '0']
  }

  /**
   * As written, an issued key is 73 ASCII bytes, so bcrypt never sees its last
   * digit: for every digest, the key with that digit changed is accepted
   * against the stored hash.
   */
  lemma {:induction false} BcryptAcceptsAlteredKey(digest: seq<byte> -> string, random: seq<byte>)
    requires |random| == RandomByteCount
    ensures var key := FormatKey(random);
      && AlteredKey(key) != key
      && |AlteredKey(key)| == |key|
      && BcryptMatches(digest, AlteredKey(key), BcryptHash(digest, key))
  {
    var key := FormatKey(random);
    var forged := AlteredKey(key);
    assert forged[72] != key[72];
    assert key == key[..72] + [key[72]];
    var head := key[..72];
    assert forall i :: 0 <= i < 72 ==> head[i] as int < 0x80 by {
      forall i | 0 <= i < 72 ensures head[i] as int < 0x80 {
        if i < |KeyPrefix| {
          assert head[i] == KeyPrefix[i];
        } else {
          assert IsHexDigit(key[i]);
        }
      }
    }
    Utf8Append(head, [key[72]]);
    Utf8Append(head, [forged[72]]);
    assert Utf8(key)[..72] == Utf8(head);
    assert Utf8(forged)[..72] == Utf8(head);
  }

  /**
   * With the whole key hashed, as the registry above does, a collision-free
   * hash rejects the altered key.
   */
  lemma FullHashRejectsAlteredKey(hash: string -> string, random: seq<byte>)
    requires |random| == RandomByteCount && Injective(hash)
    ensures var key := FormatKey(random);
      !Matches(hash, AlteredKey(key), ApiKeyRecord(hash(key), None, 0, None))
  {
    var key := FormatKey(random);
    assert AlteredKey(key)[72] != key[72];
  }
}
