/** A cached value with its expiry time; the clock is a parameter of every operation that reads it. */
module CacheEntries {
  import opened Sums

  const INT_MAX: int := 2147483647
  const TIME_MAX: int := 9223372036854775807

  datatype Entry = Entry(key: string, value: string, expiresAt: int, accessCount: nat) {
    predicate IsExpired(now: int) { now > expiresAt }

    function Size(): nat { |key| + |value| }

    function Accessed(): Entry { this.(accessCount := accessCount + 1) }
  }

  function NewEntry(key: string, value: string, ttl: int, now: int): Entry {
    Entry(key, value, now + ttl, 0)
  }

  function Sizes(entries: map<string, Entry>): map<string, int> {
    map k | k in entries :: entries[k].Size()
  }

  /** The bytes the live entries really occupy. */
  ghost function TotalSize(entries: map<string, Entry>): int {
    Sum(Sizes(entries))
  }

  lemma TotalSizeRemove(entries: map<string, Entry>, key: string)
    requires key in entries
    ensures TotalSize(entries) == entries[key].Size() + TotalSize(entries - {key})
  {
    SumRemove(Sizes(entries), key);
    assert Sizes(entries) - {key} == Sizes(entries - {key});
  }

  lemma TotalSizeUpdate(entries: map<string, Entry>, key: string, entry: Entry)
    ensures TotalSize(entries[key := entry])
         == TotalSize(entries) - (if key in entries then entries[key].Size() else 0) + entry.Size()
  {
    SumUpdate(Sizes(entries), key, entry.Size());
    assert Sizes(entries)[key := entry.Size()] == Sizes(entries[key := entry]);
  }

  lemma TotalSizeNonNegative(entries: map<string, Entry>)
    ensures TotalSize(entries) >= 0
    ensures forall k :: k in entries ==> entries[k].Size() <= TotalSize(entries)
  {
    SumNonNegative(Sizes(entries));
    forall k | k in entries ensures entries[k].Size() <= TotalSize(entries) {
      assert Sizes(entries)[k] <= Sum(Sizes(entries));
    }
  }
}
