/**
 * The worker's platform helpers: the environment's secrets, SQLite's integer
 * booleans, and one key-value namespace with its
 * put/get/delete operations. Transport failures of the platform are not
 * modelled: every store call reaches the store.
 */
module Cloudflare {
  import opened Wrappers
  import opened ApiResult
  import Config

  /** The worker environment: the build profile and the configured secrets. */
  datatype Env = Env(profile: Config.Profile, secrets: map<string, string>)

  /** `env.secret(name).map(|s| s.to_string()).unwrap_or_default()` */
  function SecretOrEmpty(env: Env, name: string): string {
    if name in env.secrets then env.secrets[name] else ""
  }

  newtype u32 = x: int | 0 <= x < 0x1_0000_0000

  /** SQLite keeps booleans as integers. */
  datatype DbBool = DbBool(v: u32)

  /** `DbBool::from(bool)`: true is stored as 1 and false as 0. */
  function FromBool(b: bool): (r: DbBool)
    ensures b ==> r.v == 1
    ensures !b ==> r.v == 0
  {
    if b then DbBool(1) else DbBool(0)
  }

  /** `bool::from(DbBool)`: only the value 1 reads as true. */
  function ToBool(d: DbBool): (r: bool)
    ensures r <==> d.v == 1
  {
    d.v == 1
  }

  /** `DbBool::from(u32)` panics on anything but 0 and 1. */
  function FromU32(v: u32): (r: DbBool)
    requires v == 0 || v == 1
    ensures r.v == v && ToBool(r) == (v == 1)
  {
    match v
    case 0 => DbBool(0)
    case 1 => DbBool(1)
  }

  /** bool to DbBool and back is the identity. */
  lemma BoolRoundTrip(b: bool)
    ensures ToBool(FromBool(b)) == b
  {
  }

  /** A stored 0 or 1 survives the trip through bool. */
  lemma U32RoundTrip(v: u32)
    requires v == 0 || v == 1
    ensures FromBool(ToBool(FromU32(v))) == FromU32(v)
  {
  }

  /** The error `get_kv_json` reports for a missing key. */
  function MissingKey(namespace: string, key: string): ApiError {
    Kv("missing kv key " + key + " in namespace " + namespace)
  }

  /** One key-value namespace, holding JSON values of type V under string keys. */
  class Kv<V> {
    const namespace: string
    var entries: map<string, V>

    constructor (namespace: string, entries: map<string, V>)
      ensures this.namespace == namespace && this.entries == entries
    {
      this.namespace := namespace;
      this.entries := entries;
    }

    /** `put_kv`: the key now holds the value; every other key is untouched. */
    method Put(key: string, value: V)
      modifies this
      ensures entries == old(entries)[key := value]
    {
      entries := entries[key := value];
    }

    /** `try_get_kv_json`: the stored value, or `None` for a missing key. */
    method TryGet(key: string) returns (r: Option<V>)
      ensures key in entries ==> r == Some(entries[key])
      ensures key !in entries ==> r == None
    {
      if key in entries {
        r := Some(entries[key]);
      } else {
        r := None;
      }
    }

    /** `get_kv_json`: like `TryGet`, but a missing key is a `Kv` error. */
    method Get(key: string) returns (r: ApiResult<V>)
      ensures key in entries ==> r == Ok(entries[key])
      ensures key !in entries ==> r == Err(MissingKey(namespace, key))
    {
      var found := TryGet(key);
      match found
      case Some(v) => r := Ok(v);
      case None => r := Err(MissingKey(namespace, key));
    }

    /** `delete_kv`: the key is gone (whether or not it was there); nothing else changes. */
    method Delete(key: string)
      modifies this
      ensures entries == old(entries) - {key}
    {
      entries := entries - {key};
    }
  }
}
