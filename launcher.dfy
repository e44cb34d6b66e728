/**
 * What `main` does before the search runs: choose the number of workers,
 * validate the vanity string, and set up the shared state and one worker
 * per thread. Parsing the command line, printing and spawning threads are
 * not part of this model.
 */
module Launcher {
  import opened Wrappers
  import opened Bytes
  import opened Bech32
  import opened SearchWorker
  import opened SharedSearchState
  import opened KeyDerivation

  /** `str::parse::<usize>`, whose code is not part of this model: `None` is its `Err`. */
  type ParseUsize = string -> Option<Word>

  /** How `main` ends its preparations. */
  datatype Launch =
    | ThreadsNotANumber(arg: string)   // `--threads` did not parse; nothing is started
    | InvalidVanityChar(c: char)       // the vanity string holds a non-Bech32 character; nothing is started
    | Start(target: Target, numThreads: Word)

  /**
   * The thread count (lines 220-230): `num_cpus` without `--threads`, the
   * smaller of the parsed value and `num_cpus` with it, an error carrying
   * the argument when it does not parse.
   */
  function SelectThreads(threads: Option<string>, numCpus: Word, parse: ParseUsize): (r: Result<Word, string>)
    ensures r.Ok? ==> r.value <= numCpus
    ensures threads.None? ==> r == Ok(numCpus)
    ensures threads.Some? && parse(threads.value).None? ==> r == Err(threads.value)
    ensures threads.Some? && parse(threads.value).Some? ==>
              r.Ok? && r.value <= parse(threads.value).value &&
              (r.value == parse(threads.value).value || r.value == numCpus)
  {
    match threads
    case None => Ok(numCpus)
    case Some(arg) =>
      match parse(arg)
      case Some(n) => Ok(if n <= numCpus then n else numCpus)
      case None => Err(arg)
  }

  /** `i` is the position of the first character of `vanity` outside the Bech32 alphabet. */
  predicate FirstInvalidAt(vanity: string, i: int) {
    0 <= i < |vanity| && !IsDataChar(vanity[i]) &&
    forall j :: 0 <= j < i ==> IsDataChar(vanity[j])
  }

  /**
   * The validation loop (lines 232-242): walk the vanity string and stop at
   * the first character that is not a Bech32 data symbol.
   */
  method FindInvalidChar(vanity: string) returns (bad: Option<char>)
    ensures bad.None? <==> IsValidVanity(vanity)
    ensures bad.Some? ==> exists i :: FirstInvalidAt(vanity, i) && vanity[i] == bad.value
  {
    var i := 0;
    while i < |vanity|
      invariant 0 <= i <= |vanity|
      invariant forall j :: 0 <= j < i ==> IsDataChar(vanity[j])
    {
      if !IsDataChar(vanity[i]) {
        assert FirstInvalidAt(vanity, i);
        return Some(vanity[i]);
      }
      i := i + 1;
    }
    return None;
  }

  /**
   * `main` up to the spawning of the workers: the thread count is settled
   * first, then the vanity string is checked; either failure ends the
   * program before any worker exists.
   */
  method Prepare(vanity: string, hrp: string, threads: Option<string>, numCpus: Word, parse: ParseUsize)
    returns (r: Launch)
    ensures SelectThreads(threads, numCpus, parse).Err? ==>
              r == ThreadsNotANumber(SelectThreads(threads, numCpus, parse).error)
    ensures SelectThreads(threads, numCpus, parse).Ok? && !IsValidVanity(vanity) ==>
              r.InvalidVanityChar? && exists i :: FirstInvalidAt(vanity, i) && vanity[i] == r.c
    ensures r.Start? <==> SelectThreads(threads, numCpus, parse).Ok? && IsValidVanity(vanity)
    ensures r.Start? ==>
              r.target == Target(hrp, vanity) && r.numThreads == SelectThreads(threads, numCpus, parse).value &&
              r.numThreads <= numCpus
  {
    var selected := SelectThreads(threads, numCpus, parse);
    if selected.Err? {
      return ThreadsNotANumber(selected.error);
    }
    var bad := FindInvalidChar(vanity);
    if bad.Some? {
      return InvalidVanityChar(bad.value);
    }
    return Start(Target(hrp, vanity), selected.value);
  }

  /**
   * Lines 253-266 without the threads: one counter and one flag, cleared,
   * and `numThreads` distinct workers that all share them.
   */
  method SetUpWorkers(target: Target, crypto: Crypto, numThreads: nat)
    returns (shared: Shared, workers: seq<Worker>)
    ensures fresh(shared) && shared.count == 0 && !shared.success
    ensures |workers| == numThreads
    ensures forall i :: 0 <= i < numThreads ==>
              fresh(workers[i]) && workers[i].Valid() &&
              workers[i].shared == shared && workers[i].target == target && workers[i].crypto == crypto &&
              workers[i].State() == Initial(0, false)
    ensures forall i, j :: 0 <= i < j < numThreads ==> workers[i] != workers[j]
  {
    shared := new Shared();
    workers := [];
    while |workers| < numThreads
      invariant |workers| <= numThreads
      invariant fresh(shared) && shared.count == 0 && !shared.success
      invariant forall i :: 0 <= i < |workers| ==>
                  fresh(workers[i]) && workers[i].Valid() &&
                  workers[i].shared == shared && workers[i].target == target && workers[i].crypto == crypto &&
                  workers[i].State() == Initial(0, false)
      invariant forall i, j :: 0 <= i < j < |workers| ==> workers[i] != workers[j]
    {
      var w := new Worker(target, crypto, shared);
      workers := workers + [w];
    }
  }

  /** A valid vanity string puts the only separator of `hrp + '1' + vanity` right after the hrp. */
  lemma {:induction false} AddressStartSeparator(t: Target)
    requires IsValidVanity(t.vanity)
    ensures AddressStart(t)[|t.hrp|] == Separator
    ensures forall i :: |t.hrp| < i < |AddressStart(t)| ==> AddressStart(t)[i] != Separator
  {
    SeparatorNotInCharset();
    forall i | |t.hrp| < i < |AddressStart(t)|
      ensures AddressStart(t)[i] != Separator
    {
      assert AddressStart(t)[i] == t.vanity[i - |t.hrp| - 1];
    }
  }

  /** `--threads 999` on a machine with 8 hardware threads runs 8 workers. */
  lemma ClampsToCpus(parse: ParseUsize)
    requires parse("999") == Some(999)
    ensures SelectThreads(Some("999"), 8, parse) == Ok(8)
  {
  }

  /** `--threads 0` parses and starts no worker at all. */
  lemma ZeroThreadsAccepted(parse: ParseUsize, numCpus: Word)
    requires parse("0") == Some(0)
    ensures SelectThreads(Some("0"), numCpus, parse) == Ok(0)
  {
  }

  /** A vanity string containing `b`, which is not a Bech32 symbol, is never valid, so `Prepare` never starts it. */
  lemma {:induction false} RejectsB(vanity: string)
    requires 'b' in vanity
    ensures !IsValidVanity(vanity)
    ensures exists i :: FirstInvalidAt(vanity, i)
  {
    assert !IsDataChar('b');
    var k :| 0 <= k < |vanity| && vanity[k] == 'b';
    FirstInvalidExists(vanity, k);
  }

  /** A string with an invalid character at `k` has a first invalid character at or before `k`. */
  lemma {:induction false} FirstInvalidExists(vanity: string, k: int)
    requires 0 <= k < |vanity| && !IsDataChar(vanity[k])
    ensures exists i :: 0 <= i <= k && FirstInvalidAt(vanity, i)
    decreases k
  {
    if forall j :: 0 <= j < k ==> IsDataChar(vanity[j]) {
      assert FirstInvalidAt(vanity, k);
    } else {
      var j :| 0 <= j < k && !IsDataChar(vanity[j]);
      FirstInvalidExists(vanity, j);
    }
  }

  /**
   * With the default hrp `wit` and an empty vanity string, a fresh worker
   * whose first key encodes to an address starting with `wit1` claims the
   * result on that first iteration and leaves the counter as it was. What
   * the encoder returns is an assumption stated in the requires: nothing
   * else in the model assumes a prefix of `encode`.
   */
  lemma EmptyVanityWinsFirstIteration(crypto: Crypto, count: Word, ticks: seq<Tick>, address: string)
    requires |ticks| > 0 && !ticks[0].othersStored
    requires crypto.encode("wit", Pkh(crypto.hash, ticks[0].candidate.publicKey)) == Some(address)
    requires "wit1" <= address
    requires XprvOf(crypto, ticks[0].candidate, ticks[0].chaincode).Some?
    ensures var f := Search(Target("wit", ""), crypto, Initial(count, false), ticks);
            IsReported(f) && f.phase.halt.report.address == address &&
            f.threadCount == 0 && f.count == count && f.success
  {
    var t := Target("wit", "");
    assert AddressStart(t) == "wit1";
    var next := Iteration(t, crypto, Interfere(Initial(count, false), false), ticks[0].candidate, ticks[0].chaincode);
    assert Search(t, crypto, Initial(count, false), ticks) == Search(t, crypto, next, ticks[1..]);
  }
}
