/** Key derivation for `cachedQuery`: either the caller's explicit key, or a
    digest of the serialized argument list, optionally namespaced by a prefix.
    The digest (SHA-256 in hex) and the serializer (`JSON.stringify`) are
    foreign code; they are parameters here, so all that is assumed of them is
    that they are functions. */
module Keys {
  import opened Values

  const MissingKeyMessage: string := "`key` is required when `autoKey` is false."

  /** The explicit key is usable when it is present and not the empty string
      (JavaScript's `!key` rejects both `undefined` and `""`). */
  predicate UsableKey(key: Option<string>) {
    key.Some? && key.value != ""
  }

  /** The automatic key: `prefix:digest`, or the bare digest when the prefix is empty. */
  function AutoKey(prefix: string, args: seq<Value>, hash: string -> string, serialize: seq<Value> -> string): (k: string)
    ensures prefix == "" ==> k == hash(serialize(args))
    ensures prefix != "" ==>
      |k| == |prefix| + 1 + |hash(serialize(args))| &&
      k[..|prefix|] == prefix && k[|prefix|] == ':' && k[|prefix| + 1..] == hash(serialize(args))
  {
    var digest := hash(serialize(args));
    if prefix != "" then prefix + ":" + digest else digest
  }

  /** The key a call uses, or the configuration error it raises. */
  function DeriveKey(key: Option<string>, autoKey: bool, prefix: string, args: seq<Value>,
                     hash: string -> string, serialize: seq<Value> -> string): (r: Result<string, Error>)
    ensures r.Err? <==> !autoKey && !UsableKey(key)
    ensures r.Err? ==> r.error == ConfigurationError(MissingKeyMessage)
    ensures !autoKey && r.Ok? ==> r.value == key.value && r.value != ""
    ensures autoKey ==> r == Ok(AutoKey(prefix, args, hash, serialize))
  {
    if autoKey then Ok(AutoKey(prefix, args, hash, serialize))
    else if !UsableKey(key) then Err(ConfigurationError(MissingKeyMessage))
    else Ok(key.value)
  }

  /** With auto-keying on, the explicit key plays no part, and argument lists
      that serialize alike under the same prefix get the same key. */
  lemma AutoKeyDeterministic(key1: Option<string>, key2: Option<string>, prefix: string,
                             args1: seq<Value>, args2: seq<Value>,
                             hash: string -> string, serialize: seq<Value> -> string)
    requires serialize(args1) == serialize(args2)
    ensures DeriveKey(key1, true, prefix, args1, hash, serialize) == DeriveKey(key2, true, prefix, args2, hash, serialize)
  {
  }

  /** Under one prefix, distinct digests give distinct keys: the prefix adds no
      collisions of its own (collisions of the digest itself are not modelled). */
  lemma DistinctDigestsDistinctKeys(prefix: string, args1: seq<Value>, args2: seq<Value>,
                                    hash: string -> string, serialize: seq<Value> -> string)
    requires hash(serialize(args1)) != hash(serialize(args2))
    ensures AutoKey(prefix, args1, hash, serialize) != AutoKey(prefix, args2, hash, serialize)
  {
    var k1, k2 := AutoKey(prefix, args1, hash, serialize), AutoKey(prefix, args2, hash, serialize);
    if prefix != "" {
      assert k1[|prefix| + 1..] != k2[|prefix| + 1..];
    }
  }

  /** Keys with a prefix never collide with keys under a different prefix
      whenever neither prefix contains a colon. */
  lemma PrefixesSeparateNamespaces(p1: string, p2: string, args1: seq<Value>, args2: seq<Value>,
                                   hash: string -> string, serialize: seq<Value> -> string)
    requires p1 != "" && p2 != "" && p1 != p2
    requires ':' !in p1 && ':' !in p2
    ensures AutoKey(p1, args1, hash, serialize) != AutoKey(p2, args2, hash, serialize)
  {
    var k1, k2 := AutoKey(p1, args1, hash, serialize), AutoKey(p2, args2, hash, serialize);
    if |p1| < |p2| {
      assert k2[|p1|] == p2[|p1|] != ':' == k1[|p1|];
    } else if |p2| < |p1| {
      assert k1[|p2|] == p1[|p2|] != ':' == k2[|p2|];
    } else {
      assert k1[..|p1|] == p1 != p2 == k2[..|p2|];
    }
  }
}
