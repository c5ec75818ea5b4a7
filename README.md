# Multi-level LRU cache simulation and batch chunker

This project models two pieces of the repository in Dafny and proves properties of them.

**The cache hierarchy** (`swe_concepts/cpu-cache-test.py`) simulates a CPU memory hierarchy:

- three `CacheLevel`s: L1 holds 100 entries, L2 holds 1000 and L3 holds 10000;
- a `Database` behind them.

Each cache level is a bounded `OrderedDict` with `hits` and `misses` counters. The dictionary is
modelled as a sequence of (key, value) pairs with distinct keys, least recently used first
(module `Lru`). The classes `CacheLevel`, `Database` and `CacheHierarchy` (module `CpuCache`)
keep their fields as the Python objects do. Their methods change those fields in place, and
each method's postcondition gives the new state as a function of the old one.

- A level's `get` on a present key counts a hit and moves the key to the most recent end. On
  an absent key it counts a miss and returns None (`Option.None`).
- A level's `put` evicts the front entry whenever the level holds `size` entries or more. It
  does so *even when the key is already stored*, so a full level that updates a key other than
  its oldest one drops to `size - 1` entries (`Lru.PutEntryFullExistingShrinks`). Assigning to a
  key that is already stored changes its value but not its position.
- The hierarchy's `get` tries L1, L2, L3 and then the database. It copies a value it finds
  into every faster level, using that level's `put`. Its `put` writes through to the
  database and then to L3, L2 and L1.

**The batch chunker** (`batch_data_generator` in `concepts/thread_pool_requests.py`) splits its
input into consecutive batches of `batch_size` items and yields a last partial batch if items
are left over. `Batching.BatchData` builds the batches with the source's loop. It is proved to
return exactly the reference chunking `Batching.Chunks`. Separate lemmas show that the chunking
keeps the partition promise, and that the promise determines the chunking uniquely. The model
keeps the source's behaviour for a `batch_size` below one: `len(batch) == batch_size` never
holds after an append, so a non-empty input comes out as a single batch.

Files: `options.dfy` (the `Option` miss sentinel), `lru.dfy`, `cache.dfy`, `batching.dfy`.

## Model

| member | source | states |
|---|---|---|
| Lru.MoveToEndSpec | swe_concepts/cpu-cache-test.py:25 | `move_to_end` keeps distinct keys and the length. The moved key becomes the last entry, every key still maps to its old value, and the other entries keep their relative order. |
| Lru.AssignSpec | swe_concepts/cpu-cache-test.py:37 | Item assignment maps the key to the new value and leaves every other key alone. An existing key keeps its position. A new key is appended at the most recent end. Distinct keys are preserved. |
| Lru.PutEntrySpec | swe_concepts/cpu-cache-test.py:32-37 | After `put` the key maps to the new value and keys stay distinct. When the level was full, the front (least recently used) key is lost, unless it is the key being stored. No other key changes. |
| Lru.PutEntryKeys | swe_concepts/cpu-cache-test.py:34-37 | The key order after `put` is the old one, minus the front key if the level was full, with the key appended only if it was not already there. |
| Lru.PutEntryBounded | swe_concepts/cpu-cache-test.py:34-37 | With `size >= 1` and at most `size` entries before, `put` leaves at most `size` entries. |
| Lru.PutEntryFullExistingShrinks | swe_concepts/cpu-cache-test.py:34-37 | On a full level, storing an already-present key that is not the oldest still evicts the oldest key. The level ends one entry below its size. |
| CpuCache.CacheLevel.constructor | swe_concepts/cpu-cache-test.py:11-17 | A new level has the given name and size, no entries, and zero hits and misses. |
| CpuCache.CacheLevel.Get | swe_concepts/cpu-cache-test.py:20-30 | Returns the stored value or None. A hit adds one to `hits` and moves the key to the most recent end, with the other entries in unchanged order. A miss adds one to `misses` and leaves the entries unchanged. The level's dictionary contents never change. |
| CpuCache.CacheLevel.Put | swe_concepts/cpu-cache-test.py:32-38 | The new entries are `PutEntry` of the old ones, so the level stays within `size` and maps the key to the value. The counters are untouched. |
| CpuCache.CacheLevel.ClearStats | swe_concepts/cpu-cache-test.py:40-43 | `hits` and `misses` become 0. Only those two fields may change. |
| CpuCache.Database.constructor | swe_concepts/cpu-cache-test.py:52-56 | Empty data, zero reads and writes. |
| CpuCache.Database.Get | swe_concepts/cpu-cache-test.py:59-63 | Adds one to the read counter and returns `data.get(key)`. |
| CpuCache.Database.Put | swe_concepts/cpu-cache-test.py:65-69 | Adds one to the write counter and sets `data[key] = value`. |
| CpuCache.CacheHierarchy.constructor | swe_concepts/cpu-cache-test.py:73-78 | Three fresh, distinct, empty levels of sizes 100, 1000 and 10000, plus a fresh empty database. |
| CpuCache.CacheHierarchy.Get | swe_concepts/cpu-cache-test.py:80-103 | Returns the value from the fastest level that holds the key, or from the database. That source counts a hit (the database a read), and every faster level counts a miss and receives the value through its `put`. L2 hits are put into L1. L3 hits are put into L2 and L1. Database hits are put into L3, L2 and L1. A database miss returns None and leaves all entries unchanged. After any hit, L1 and every level that missed map the key to the value. |
| CpuCache.CacheHierarchy.Put | swe_concepts/cpu-cache-test.py:105-110 | Write-through. The database gets `data[key] = value` and one more write. L3, L2 and L1 each get their `put`. Afterwards the database and all three levels map the key to the value, and no counter of a level changes. |
| CpuCache.CacheHierarchy.ClearStats | swe_concepts/cpu-cache-test.py:112-115 | The hit and miss counters of all three levels become 0. No entries change. |
| Batching.BatchData | concepts/thread_pool_requests.py:9-17 | The batches concatenate to the input, in order, and none is empty. Empty input yields no batches. For `batch_size >= 1`, every batch but the last has exactly `batch_size` items, the output equals the reference chunking, and there are ceil(n / batch_size) batches. For `batch_size < 1`, a non-empty input is a single batch. |
| Batching.ChunksIsBatching | concepts/thread_pool_requests.py:9-17 | The reference chunking concatenates to the input and has no empty batch. Every batch holds at most `batch_size` items, and all but the last hold exactly `batch_size`. |
| Batching.BatchingUnique | concepts/thread_pool_requests.py:13-17 | Any sequence of batches with those partition properties is the reference chunking, so the properties determine the generator's output. |
| Batching.ChunksCount | concepts/thread_pool_requests.py:9-17 | The reference chunking has ceil(n / batch_size) batches. |

## Left out

- Locks: `threading.Lock` in every class is not modelled. It is concurrency, and it does not affect the data logic of a single call.
- Simulated latency: `time.sleep` and the `access_time_ms` parameters are not modelled. They are wall-clock timing with no effect on the stored data.
- `CacheLevel.hit_rate` is not modelled. It is a floating-point division.
- The benchmark code is not modelled: `run_access_pattern_benchmark`, `print_results` and `main` in `swe_concepts/cpu-cache-test.py`. It uses randomness, timers, floats and printing.
- The thread-pool driver is not modelled: `send_write_request` and `main` in `concepts/thread_pool_requests.py`. It uses a thread pool, calls `db_write` and `data_stream`, and neither of those is defined in the repository.
- CpuCache.CacheLevel.constructor: requires `size >= 1`. Python accepts any size. With `size <= 0`, the first `put` raises `KeyError`, because `popitem` is called on an empty dictionary. That error path is not modelled.
- Stored `None` values are not modelled. Python uses `None` both as a value that could be stored and as the miss sentinel, so a stored `None` would look like a miss. Here values and the `Option.None` miss are distinct.
- Types: keys and values are generic type parameters. The Python code uses string keys and arbitrary values.
- Batching.BatchData: the Python generator yields its batches lazily, and each yielded list is a fresh object. The model returns the whole sequence of batches at once and does not model laziness or list identity.
- `gobank/api.go`, `python-concepts/threading_without_GIL.py`, `python-concepts/await.py`, `c/high-res-timer.cpp` and `c/high-res-timer-x86.cpp` are not part of this model. They are HTTP glue over stub handlers, thread and asyncio demos that only print, and clock reads.
- The repository's design notes describe a fixed-width record file, a write-ahead log and a cursor. No source file implements them, so they are not part of this model; the model follows the code.
