/**
 * The in-memory download store: `storeFile` records a file under an id and
 * `getFile` returns it while it is at most 24 hours old, dropping it once it
 * is older.
 *
 * The clock (`new Date()`, `Date.now()`) is a parameter in milliseconds. The
 * 24-hour `setTimeout` deletion is not part of this model.
 */
module FileStorage {
  import opened Common

  datatype StoredFile = StoredFile(content: string, contentType: string, fileName: string, createdAt: int)

  const HourMillis: int := 1000 * 60 * 60
  const MaxAgeHours: int := 24

  /** `hoursSinceCreation > 24` on exact division: the age in milliseconds exceeds 24 hours. */
  predicate Expired(file: StoredFile, now: int) {
    now - file.createdAt > MaxAgeHours * HourMillis
  }

  class FileStore {
    var files: map<string, StoredFile>

    constructor()
      ensures files == map[]
    {
      files := map[];
    }

    /** `storeFile`: replaces any earlier record under `id`. */
    method StoreFile(id: string, content: string, contentType: string, fileName: string, now: int)
      modifies this
      ensures files == old(files)[id := StoredFile(content, contentType, fileName, now)]
    {
      files := files[id := StoredFile(content, contentType, fileName, now)];
    }

    /**
     * `getFile`: `null` for an unknown id; `null` and the record removed
     * when it is more than 24 hours old; otherwise the record as stored.
     */
    method GetFile(id: string, now: int) returns (r: Option<StoredFile>)
      modifies this
      ensures id !in old(files) ==> r.None? && files == old(files)
      ensures id in old(files) && Expired(old(files)[id], now) ==> r.None? && files == old(files) - {id}
      ensures id in old(files) && !Expired(old(files)[id], now) ==> r == Some(old(files)[id]) && files == old(files)
    {
      if id !in files {
        return None;
      }
      var file := files[id];
      if Expired(file, now) {
        files := files - {id};
        return None;
      }
      return Some(file);
    }
  }

  /** The expiry test agrees with the source's hour arithmetic: age / 3600000 > 24 on exact division. */
  lemma ExpiredMeansOlderThanDay(file: StoredFile, now: int)
    ensures Expired(file, now) <==> (now - file.createdAt) as real / HourMillis as real > MaxAgeHours as real
  {
  }

  /** A file read back at the moment it is stored, or up to exactly 24 hours later, is not expired. */
  lemma FreshNotExpired(content: string, contentType: string, fileName: string, stored: int, now: int)
    requires stored <= now <= stored + MaxAgeHours * HourMillis
    ensures !Expired(StoredFile(content, contentType, fileName, stored), now)
  {
  }

  /** A file stored and then read back within 24 hours comes back exactly as stored, and the store keeps it. */
  method StoreThenGet(store: FileStore, id: string, content: string, contentType: string, fileName: string, stored: int, now: int)
    returns (r: Option<StoredFile>)
    requires stored <= now <= stored + MaxAgeHours * HourMillis
    modifies store
    ensures r == Some(StoredFile(content, contentType, fileName, stored))
    ensures store.files == old(store.files)[id := StoredFile(content, contentType, fileName, stored)]
  {
    store.StoreFile(id, content, contentType, fileName, stored);
    FreshNotExpired(content, contentType, fileName, stored, now);
    r := store.GetFile(id, now);
  }
}
