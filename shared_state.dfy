/**
 * The state all workers of one search share: the attempt counter
 * (`Arc<AtomicU64>`) and the found flag (`Arc<AtomicBool>`). Each method is
 * one atomic operation; how operations of different threads interleave is
 * not part of this model.
 */
module SharedSearchState {
  import opened Bytes

  class Shared {
    /** `count`: attempts reported so far, in batches. */
    var count: Word
    /** `success`: some worker has claimed a result. */
    var success: bool

    /** `AtomicU64::new(0)` and `AtomicBool::new(false)` in `main`. */
    constructor ()
      ensures count == 0 && !success
    {
      count := 0;
      success := false;
    }

    /** `count.fetch_add(n, SeqCst)`: adds `n`, wrapping at 2^64. */
    method FetchAdd(n: Word)
      modifies this
      ensures count == WrappingAdd(old(count), n)
      ensures success == old(success)
    {
      count := WrappingAdd(count, n);
    }

    /** `success.load(SeqCst)`. */
    method Load() returns (found: bool)
      ensures found == success
    {
      found := success;
    }

    /** `success.store(value, SeqCst)`. */
    method Store(value: bool)
      modifies this
      ensures success == value
      ensures count == old(count)
    {
      success := value;
    }
  }
}
