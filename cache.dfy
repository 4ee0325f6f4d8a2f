/**
 * The file cache of lib/cache.php. Each entry lives in a file named after
 * (namespace trimmed of '/', sha1(key)); the file holds the JSON payload
 * {value, expires_at, stored_at}. Expiry is lazy: a read that finds an expired
 * entry deletes it.
 *
 * The directory of files is a map from slots to file contents; `sha1`, the
 * clock and the `stored_at` date are parameters.
 */
module Cache {
  import opened Wrappers
  import opened Strings
  import opened Json

  /** The storage identity of an entry: the trimmed namespace and the hashed key. */
  type Slot = (string, string)

  /** A cache file: unreadable, or readable with the value `json_decode` made of its text (JNull when it does not decode). */
  datatype StoredFile = Unreadable | Payload(data: Json)

  type Files = map<Slot, StoredFile>

  function SlotOf(hash: string -> string, ns: string, key: string): (s: Slot)
    ensures s.0 == TrimBy(ns, {'/'}) && s.1 == hash(key)
  {
    (TrimBy(ns, {'/'}), hash(key))
  }

  /** `expires_at` for a given ttl: now + ttl when ttl is positive, otherwise 0 (never expires). */
  function ExpiresAt(ttl: int, now: int): (e: int)
    ensures ttl > 0 ==> e == now + ttl
    ensures ttl <= 0 ==> e == 0
  {
    if ttl > 0 then now + ttl else 0
  }

  /** The payload cache_set writes. */
  function Record(value: Json, ttl: int, now: int, storedAt: string): (j: Json)
    ensures j.JObject? && j.IsArray()
    ensures j.fields.Keys == {"value", "expires_at", "stored_at"}
    ensures Field(j, "value") == (if value == JNull then None else Some(value))
    ensures Field(j, "expires_at") == Some(JInt(ExpiresAt(ttl, now)))
  {
    JObject(map["value" := value, "expires_at" := JInt(ExpiresAt(ttl, now)), "stored_at" := JStr(storedAt)])
  }

  /**
   * An entry whose integer `expires_at` is non-zero and strictly before now.
   * A non-integer `expires_at` is never treated as expired.
   */
  predicate Expired(expiresAt: Json, now: int) {
    expiresAt.JInt? && expiresAt.n != 0 && expiresAt.n < now
  }

  /** What a read of the slot yields: the stored value, or JNull for a miss. */
  function ReadSlot(files: Files, s: Slot, now: int): (v: Json)
    // a missing or unreadable file is a miss
    ensures s !in files || files[s].Unreadable? ==> v == JNull
    // a payload that is not an array, or has no expires_at, is a miss
    ensures s in files && files[s].Payload? && (!files[s].data.IsArray() || Field(files[s].data, "expires_at").None?) ==> v == JNull
    // an expired entry is a miss
    ensures (s in files && files[s].Payload? && Field(files[s].data, "expires_at").Some?
             && Expired(Field(files[s].data, "expires_at").value, now)) ==> v == JNull
    // otherwise the stored value is returned (null when absent)
    ensures (s in files && files[s].Payload? && files[s].data.IsArray() && Field(files[s].data, "expires_at").Some?
             && !Expired(Field(files[s].data, "expires_at").value, now)) ==> v == Field(files[s].data, "value").GetOr(JNull)
  {
    if s !in files || files[s].Unreadable? then JNull
    else
      var data := files[s].data;
      if !data.IsArray() || Field(data, "expires_at").None? then JNull
      else if Expired(Field(data, "expires_at").value, now) then JNull
      else Field(data, "value").GetOr(JNull)
  }

  /** Whether a read of the slot deletes it: a readable payload with an expired `expires_at`. */
  predicate ReadDeletes(files: Files, s: Slot, now: int) {
    && s in files && files[s].Payload?
    && files[s].data.IsArray()
    && Field(files[s].data, "expires_at").Some?
    && Expired(Field(files[s].data, "expires_at").value, now)
  }

  /** The files after a read of the slot: an expired entry is gone, everything else stays. */
  function AfterRead(files: Files, s: Slot, now: int): (after: Files)
    ensures after.Keys <= files.Keys
    ensures forall o :: o in files && o != s ==> o in after && after[o] == files[o]
    ensures s in after <==> s in files && !ReadDeletes(files, s, now)
  {
    if ReadDeletes(files, s, now) then files - {s} else files
  }

  /** A read right after a write returns the value written, as long as the entry has not expired. */
  lemma GetAfterSet(files: Files, s: Slot, value: Json, ttl: int, now: int, storedAt: string, later: int)
    requires ttl <= 0 || later <= now + ttl
    ensures ReadSlot(files[s := Payload(Record(value, ttl, now, storedAt))], s, later) == value
    ensures !ReadDeletes(files[s := Payload(Record(value, ttl, now, storedAt))], s, later)
  {
  }

  /** Once the ttl has run out (strictly), the same read is a miss and deletes the file. */
  lemma GetAfterExpiry(files: Files, s: Slot, value: Json, ttl: int, now: int, storedAt: string, later: int)
    requires ttl > 0 && now + ttl != 0 && later > now + ttl
    ensures ReadSlot(files[s := Payload(Record(value, ttl, now, storedAt))], s, later) == JNull
    ensures ReadDeletes(files[s := Payload(Record(value, ttl, now, storedAt))], s, later)
  {
  }

  /** Writing or deleting one slot leaves every other slot reading as before. */
  lemma OtherSlotsUnaffected(files: Files, s: Slot, other: Slot, f: StoredFile, now: int)
    requires s != other
    ensures ReadSlot(files[s := f], other, now) == ReadSlot(files, other, now)
    ensures ReadSlot(files - {s}, other, now) == ReadSlot(files, other, now)
    ensures ReadDeletes(files[s := f], other, now) == ReadDeletes(files, other, now)
  {
  }

  /** Equal keys in namespaces that differ after trimming '/' occupy different slots. */
  lemma NamespacesIndependent(hash: string -> string, ns1: string, ns2: string, key: string)
    requires TrimBy(ns1, {'/'}) != TrimBy(ns2, {'/'})
    ensures SlotOf(hash, ns1, key) != SlotOf(hash, ns2, key)
  {
  }

  class FileCache {
    /** sha1 */
    const hash: string -> string
    var files: Files

    constructor(hash: string -> string, files: Files)
      ensures this.hash == hash && this.files == files
    {
      this.hash := hash;
      this.files := files;
    }

    /** cache_get: the stored value or null; an expired entry is deleted on the way. */
    method Get(ns: string, key: string, now: int) returns (v: Json)
      modifies this
      ensures v == ReadSlot(old(files), SlotOf(hash, ns, key), now)
      ensures files == AfterRead(old(files), SlotOf(hash, ns, key), now)
    {
      var s := SlotOf(hash, ns, key);
      if s !in files || files[s].Unreadable? {
        return JNull;
      }
      var data := files[s].data;
      if !data.IsArray() || Field(data, "expires_at").None? {
        return JNull;
      }
      if Expired(Field(data, "expires_at").value, now) {
        files := files - {s};
        return JNull;
      }
      v := Field(data, "value").GetOr(JNull);
    }

    /** cache_set: overwrite the slot with {value, expires_at, stored_at}. */
    method Set(ns: string, key: string, value: Json, ttl: int, now: int, storedAt: string)
      modifies this
      ensures files == old(files)[SlotOf(hash, ns, key) := Payload(Record(value, ttl, now, storedAt))]
    {
      files := files[SlotOf(hash, ns, key) := Payload(Record(value, ttl, now, storedAt))];
    }

    /** cache_forget: delete the slot's file if there is one. */
    method Forget(ns: string, key: string)
      modifies this
      ensures files == old(files) - {SlotOf(hash, ns, key)}
    {
      var s := SlotOf(hash, ns, key);
      if s in files {
        files := files - {s};
      }
    }
  }
}
