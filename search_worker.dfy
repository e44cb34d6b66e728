/**
 * One search worker (`run`): generate a key pair, derive its address, and
 * compare the address with `hrp + '1' + vanity`; on a match claim the
 * found flag and report the key, otherwise keep the batched attempt
 * counter up to date and poll the flag every `UpdateCount` iterations.
 *
 * The iteration is first given as a function on a `Snapshot` of the state
 * it touches (`Iteration`, and `Search` for a run of iterations), with the
 * properties of the loop proved about those functions; the `Worker` class
 * then performs the same steps on the shared object and is proved to
 * follow them.
 */
module SearchWorker {
  import opened Wrappers
  import opened Bytes
  import opened Bech32
  import opened KeyDerivation
  import opened ExtendedKey
  import opened SharedSearchState

  /** `update_count`: iterations per counter batch and per poll of the flag. */
  const UpdateCount: nat := 500

  /** The human-readable part and the vanity string: fixed for the whole search. */
  datatype Target = Target(hrp: string, vanity: string)

  /** `address_start`: what a matching address begins with. */
  function AddressStart(t: Target): string {
    t.hrp + [Separator] + t.vanity
  }

  /**
   * `bech32::encode(hrp, data.to_base32())`, whose code is not part of this
   * model. `None` stands for the `Err` on which `.unwrap()` panics. Nothing
   * is assumed about the shape of the string it returns.
   */
  type Encode = (string, seq<byte>) -> Option<string>

  /** The library functions a worker calls. */
  datatype Crypto = Crypto(hash: Hash, encode: Encode)

  /** One key pair from `generate_keypair`: the secret key and the serialized public key. */
  datatype Candidate = Candidate(secretKey: Bytes32, publicKey: seq<byte>)

  /** What a winning worker prints: the secret key, the encoded record, the address. */
  datatype Report = Report(secretKey: Bytes32, xprv: string, address: string)

  /** Why a worker left its loop. */
  datatype Halt =
    | Reported(report: Report)  // it matched, claimed the flag and printed the result
    | FoundElsewhere            // it matched, but the flag was already set
    | SawSuccess                // the periodic poll found the flag set
    | Panicked                  // an `.unwrap()` on an encoding failed

  datatype Phase = Searching | Done(halt: Halt)

  /** The worker's own `thread_count`, the shared `count` and `success`, and where the loop is. */
  datatype Snapshot = Snapshot(threadCount: nat, count: Word, success: bool, phase: Phase)

  /**
   * The inputs of one iteration: whether another worker stored `true` in
   * the flag since the previous iteration, the generated key pair, and the
   * chain code drawn should the key win.
   */
  datatype Tick = Tick(othersStored: bool, candidate: Candidate, chaincode: Bytes32)

  predicate IsReported(s: Snapshot) {
    s.phase.Done? && s.phase.halt.Reported?
  }

  /** What an iteration adds to `count` when it claims the result. */
  function WinShare(s: Snapshot): nat {
    if IsReported(s) then s.threadCount % UpdateCount else 0
  }

  /** Another worker's `store(true)` landing before this iteration reads the flag. */
  function Interfere(s: Snapshot, othersStored: bool): Snapshot {
    s.(success := s.success || othersStored)
  }

  /** The address of a key pair (lines 114-115), or `None` where `.unwrap()` panics. */
  function AddressOf(t: Target, crypto: Crypto, c: Candidate): Option<string> {
    crypto.encode(t.hrp, Pkh(crypto.hash, c.publicKey))
  }

  /** The encoded record of a winning key (line 138), or `None` where `.unwrap()` panics. */
  function XprvOf(crypto: Crypto, c: Candidate, chaincode: Bytes32): Option<string> {
    crypto.encode(XprvHrp, Layout(chaincode, c.secretKey))
  }

  /** One pass through the body of the loop in `run`. */
  function Iteration(t: Target, crypto: Crypto, s: Snapshot, c: Candidate, chaincode: Bytes32): (r: Snapshot)
    requires s.phase.Searching?
    // the flag is only ever written true
    ensures s.success ==> r.success
    ensures r.success != s.success ==> IsReported(r)
    // `thread_count` grows by one exactly on the iterations that do not stop
    ensures r.phase.Searching? ==> r.threadCount == s.threadCount + 1
    ensures r.phase.Done? ==> r.threadCount == s.threadCount
    // a report carries a matching address and sets the flag, which was clear
    ensures IsReported(r) ==>
              AddressStart(t) <= r.phase.halt.report.address && r.success && !s.success &&
              r.phase.halt.report.secretKey == c.secretKey &&
              Some(r.phase.halt.report.xprv) == crypto.encode(XprvHrp, Layout(chaincode, c.secretKey))
    ensures IsReported(r) ==> r.count == WrappingAdd(s.count, s.threadCount % UpdateCount)
    // a match seen while the flag is set stops the worker and changes nothing
    ensures r.phase == Done(FoundElsewhere) ==> s.success && r.count == s.count
    // the periodic poll stops the worker only on a batch boundary with the flag set
    ensures r.phase == Done(SawSuccess) ==>
              s.success && s.threadCount % UpdateCount == 0 && r.count == s.count
    ensures r.phase == Done(Panicked) ==> r.count == s.count && r.success == s.success
    // a continuing iteration adds a whole batch on a boundary and nothing otherwise
    ensures r.phase.Searching? ==>
              !s.success || s.threadCount % UpdateCount != 0
    ensures r.phase.Searching? ==>
              r.count == (if s.threadCount % UpdateCount == 0 then WrappingAdd(s.count, UpdateCount) else s.count)
    // which outcome the inputs produce
    ensures IsReported(r) ==> AddressOf(t, crypto, c) == Some(r.phase.halt.report.address)
    ensures r.phase == Done(Panicked) <==>
              AddressOf(t, crypto, c).None? ||
              (AddressStart(t) <= AddressOf(t, crypto, c).value && !s.success && XprvOf(crypto, c, chaincode).None?)
    ensures AddressOf(t, crypto, c).Some? && AddressStart(t) <= AddressOf(t, crypto, c).value ==>
              (s.success ==> r.phase == Done(FoundElsewhere)) &&
              (!s.success && XprvOf(crypto, c, chaincode).Some? ==> IsReported(r))
    ensures AddressOf(t, crypto, c).Some? && !(AddressStart(t) <= AddressOf(t, crypto, c).value) ==>
              (s.success && s.threadCount % UpdateCount == 0 <==> r.phase == Done(SawSuccess)) &&
              (!(s.success && s.threadCount % UpdateCount == 0) ==> r.phase.Searching?)
  {
    match AddressOf(t, crypto, c)
    case None => s.(phase := Done(Panicked))
    case Some(address) =>
      if AddressStart(t) <= address then
        if s.success then s.(phase := Done(FoundElsewhere))
        else
          match XprvOf(crypto, c, chaincode)
          case None => s.(phase := Done(Panicked))
          case Some(xprv) =>
            s.(count := WrappingAdd(s.count, s.threadCount % UpdateCount),
               success := true,
               phase := Done(Reported(Report(c.secretKey, xprv, address))))
      else if s.threadCount % UpdateCount == 0 then
        if s.success then s.(phase := Done(SawSuccess))
        else s.(count := WrappingAdd(s.count, UpdateCount), threadCount := s.threadCount + 1)
      else s.(threadCount := s.threadCount + 1)
  }

  /** The loop of `run` over a finite prefix of its inputs: iterate until the worker stops or the inputs run out. */
  function Search(t: Target, crypto: Crypto, s: Snapshot, ticks: seq<Tick>): Snapshot
    decreases |ticks|
  {
    if ticks == [] || s.phase.Done? then s
    else
      var tick := ticks[0];
      Search(t, crypto, Iteration(t, crypto, Interfere(s, tick.othersStored), tick.candidate, tick.chaincode), ticks[1..])
  }

  /** The number of batch boundaries (multiples of `UpdateCount`) among `from`, ..., `from + n - 1`. */
  function Boundaries(from: nat, n: nat): nat
    decreases n
  {
    if n == 0 then 0
    else (if from % UpdateCount == 0 then 1 else 0) + Boundaries(from + 1, n - 1)
  }

  /** The number of multiples of `UpdateCount` below `m`. */
  function MultiplesBelow(m: nat): nat {
    (m + UpdateCount - 1) / UpdateCount
  }

  lemma MultiplesBelowStep(m: nat)
    ensures MultiplesBelow(m + 1) == MultiplesBelow(m) + (if m % UpdateCount == 0 then 1 else 0)
  {
  }

  /** Counting boundaries one by one agrees with the closed form. */
  lemma {:induction false} BoundariesClosedForm(from: nat, n: nat)
    ensures Boundaries(from, n) == MultiplesBelow(from + n) - MultiplesBelow(from)
    decreases n
  {
    MultiplesBelowStep(from);
    if n > 0 {
      BoundariesClosedForm(from + 1, n - 1);
    }
  }

  /** A fresh worker has passed ceil(k / 500) boundaries after k iterations, the first at iteration 0. */
  lemma BoundariesFromStart(k: nat)
    ensures Boundaries(0, k) == (k + UpdateCount - 1) / UpdateCount
    ensures k > 0 ==> Boundaries(0, k) >= 1
    ensures UpdateCount * Boundaries(0, k) >= k
  {
    BoundariesClosedForm(0, k);
  }

  lemma ModAddAbsorb(a: nat, b: nat, a': nat)
    requires a' == a % WordModulus
    ensures (a' + b) % WordModulus == (a + b) % WordModulus
  {
  }

  /** Once set, the flag stays set for the rest of the run. */
  lemma {:induction false} SearchKeepsSuccess(t: Target, crypto: Crypto, s: Snapshot, ticks: seq<Tick>)
    requires s.success
    ensures Search(t, crypto, s, ticks).success
    decreases |ticks|
  {
    if ticks != [] && s.phase.Searching? {
      var tick := ticks[0];
      SearchKeepsSuccess(t, crypto, Iteration(t, crypto, Interfere(s, tick.othersStored), tick.candidate, tick.chaincode), ticks[1..]);
    }
  }

  /**
   * The flag is set at the end of a run only if it was set at the start, or
   * this worker reported, or another worker stored it before one of the
   * iterations this run performed (the first `threadCount` growth plus the
   * iteration that stopped it).
   */
  lemma {:induction false} SearchSuccessOrigin(t: Target, crypto: Crypto, s: Snapshot, ticks: seq<Tick>)
    requires s.phase.Searching?
    requires Search(t, crypto, s, ticks).success
    ensures var f := Search(t, crypto, s, ticks);
            s.success || IsReported(f) ||
            exists i :: 0 <= i < |ticks| && i <= f.threadCount - s.threadCount && ticks[i].othersStored
    decreases |ticks|
  {
    if ticks != [] {
      var tick := ticks[0];
      var next := Iteration(t, crypto, Interfere(s, tick.othersStored), tick.candidate, tick.chaincode);
      var f := Search(t, crypto, s, ticks);
      assert f == Search(t, crypto, next, ticks[1..]);
      if next.phase.Searching? {
        SearchSuccessOrigin(t, crypto, next, ticks[1..]);
        SearchAccounting(t, crypto, next, ticks[1..]);
        if !next.success && !IsReported(f) && !s.success {
          var i :| 0 <= i < |ticks[1..]| && i <= f.threadCount - next.threadCount && ticks[1..][i].othersStored;
          assert ticks[i + 1].othersStored && i + 1 <= f.threadCount - s.threadCount;
        } else if next.success && !s.success {
          assert ticks[0].othersStored;
        }
      } else {
        assert !s.success && !tick.othersStored ==> IsReported(next);
      }
    }
  }

  /**
   * The periodic poll bounds how long a worker outlives a set flag: it
   * stops at the latest on the next multiple of `UpdateCount`.
   */
  lemma {:induction false} StopsByNextBoundary(t: Target, crypto: Crypto, s: Snapshot, ticks: seq<Tick>)
    requires s.phase.Searching? && s.success
    requires |ticks| >= (UpdateCount - s.threadCount % UpdateCount) % UpdateCount + 1
    ensures Search(t, crypto, s, ticks).phase.Done?
    decreases |ticks|
  {
    var tick := ticks[0];
    var next := Iteration(t, crypto, Interfere(s, tick.othersStored), tick.candidate, tick.chaincode);
    assert Search(t, crypto, s, ticks) == Search(t, crypto, next, ticks[1..]);
    if next.phase.Searching? {
      assert s.threadCount % UpdateCount != 0;
      assert next.threadCount % UpdateCount == if s.threadCount % UpdateCount == UpdateCount - 1 then 0 else s.threadCount % UpdateCount + 1;
      StopsByNextBoundary(t, crypto, next, ticks[1..]);
    }
  }

  /** A report, once made, carries an address that starts with `hrp + '1' + vanity`, and the flag is set. */
  ghost predicate ReportSound(t: Target, s: Snapshot) {
    IsReported(s) ==> AddressStart(t) <= s.phase.halt.report.address && s.success
  }

  lemma {:induction false} SearchKeepsReportSound(t: Target, crypto: Crypto, s: Snapshot, ticks: seq<Tick>)
    requires ReportSound(t, s)
    ensures ReportSound(t, Search(t, crypto, s, ticks))
    decreases |ticks|
  {
    if ticks != [] && s.phase.Searching? {
      var tick := ticks[0];
      SearchKeepsReportSound(t, crypto, Iteration(t, crypto, Interfere(s, tick.othersStored), tick.candidate, tick.chaincode), ticks[1..]);
    }
  }

  /**
   * The exact accounting of a run: `thread_count` grows by the number of
   * iterations that did not stop, `count` by a batch at each boundary among
   * them plus, if the run ends in a report, `thread_count % 500`.
   */
  lemma {:induction false} SearchAccounting(t: Target, crypto: Crypto, s: Snapshot, ticks: seq<Tick>)
    requires s.phase.Searching?
    ensures var f := Search(t, crypto, s, ticks);
            s.threadCount <= f.threadCount <= s.threadCount + |ticks| &&
            (f.phase.Searching? ==> f.threadCount == s.threadCount + |ticks|) &&
            f.count == (s.count + UpdateCount * Boundaries(s.threadCount, f.threadCount - s.threadCount) + WinShare(f)) % WordModulus
    decreases |ticks|
  {
    if ticks != [] {
      var tick := ticks[0];
      var next := Iteration(t, crypto, Interfere(s, tick.othersStored), tick.candidate, tick.chaincode);
      assert Search(t, crypto, s, ticks) == Search(t, crypto, next, ticks[1..]);
      if next.phase.Searching? {
        SearchAccounting(t, crypto, next, ticks[1..]);
        var f := Search(t, crypto, next, ticks[1..]);
        AccountingStep(s.count, s.threadCount, next.count, f.count, f.threadCount - next.threadCount, WinShare(f));
      } else {
        assert Boundaries(s.threadCount, 0) == 0;
      }
    }
  }

  /** The arithmetic of one continuing iteration of `SearchAccounting`. */
  lemma AccountingStep(count: Word, tc: nat, count': Word, final: Word, k: nat, win: nat)
    requires count' == (if tc % UpdateCount == 0 then WrappingAdd(count, UpdateCount) else count)
    requires final == (count' + UpdateCount * Boundaries(tc + 1, k) + win) % WordModulus
    ensures final == (count + UpdateCount * Boundaries(tc, k + 1) + win) % WordModulus
  {
    var b := if tc % UpdateCount == 0 then 1 else 0;
    assert Boundaries(tc, k + 1) == b + Boundaries(tc + 1, k);
    var rest := UpdateCount * Boundaries(tc + 1, k) + win;
    assert UpdateCount * Boundaries(tc, k + 1) == UpdateCount * b + UpdateCount * Boundaries(tc + 1, k);
    ModAddAbsorb(count + UpdateCount * b, rest, count');
  }

  /**
   * For a worker that starts fresh, after k iterations that did not stop:
   * `count` has grown by 500 for each of the ceil(k / 500) boundaries, the
   * first at iteration 0, plus `k % 500` if the run ends in a report.
   */
  lemma SearchFromStart(t: Target, crypto: Crypto, count: Word, success: bool, ticks: seq<Tick>)
    ensures var f := Search(t, crypto, Initial(count, success), ticks);
            var k := f.threadCount;
            k <= |ticks| &&
            f.count == (count + UpdateCount * ((k + UpdateCount - 1) / UpdateCount)
                        + (if IsReported(f) then k % UpdateCount else 0)) % WordModulus
  {
    SearchAccounting(t, crypto, Initial(count, success), ticks);
    BoundariesFromStart(Search(t, crypto, Initial(count, success), ticks).threadCount);
  }

  /** As long as the counter does not wrap around 2^64, a run never lowers it. */
  lemma {:induction false} SearchCountNeverDecreases(t: Target, crypto: Crypto, s: Snapshot, ticks: seq<Tick>)
    requires s.count + UpdateCount * |ticks| < WordModulus
    ensures Search(t, crypto, s, ticks).count >= s.count
    decreases |ticks|
  {
    if ticks != [] && s.phase.Searching? {
      var tick := ticks[0];
      var next := Iteration(t, crypto, Interfere(s, tick.othersStored), tick.candidate, tick.chaincode);
      assert s.count <= next.count <= s.count + UpdateCount;
      SearchCountNeverDecreases(t, crypto, next, ticks[1..]);
    }
  }

  /** The state a worker starts from, with the shared counter and flag as found. */
  function Initial(count: Word, success: bool): Snapshot {
    Snapshot(0, count, success, Searching)
  }

  /**
   * The worker (`run`): its own `thread_count` and `address_start`, and
   * `count` and `success` through the shared object.
   */
  class Worker {
    const target: Target
    const crypto: Crypto
    const shared: Shared
    const addressStart: string
    var threadCount: nat
    var phase: Phase

    ghost predicate Valid()
      reads this
    {
      addressStart == AddressStart(target)
    }

    /** The state the specification functions talk about. */
    function State(): Snapshot
      reads this, shared
    {
      Snapshot(threadCount, shared.count, shared.success, phase)
    }

    /** The set-up at the head of `run`: `address_start` and `thread_count = 0`. */
    constructor (target: Target, crypto: Crypto, shared: Shared)
      ensures Valid()
      ensures this.target == target && this.crypto == crypto && this.shared == shared
      ensures threadCount == 0 && phase == Searching
    {
      this.target := target;
      this.crypto := crypto;
      this.shared := shared;
      addressStart := target.hrp + [Separator] + target.vanity;
      threadCount := 0;
      phase := Searching;
    }

    /** One pass through the loop body of `run`. */
    method Iterate(c: Candidate, chaincode: Bytes32)
      requires Valid() && phase.Searching?
      modifies this, shared
      ensures Valid()
      ensures State() == Iteration(target, crypto, old(State()), c, chaincode)
    {
      var pkh := DerivePkh(crypto.hash, c.publicKey);
      var encoded := crypto.encode(target.hrp, pkh);
      if encoded.None? {
        phase := Done(Panicked);
        return;
      }
      var address := encoded.value;
      if addressStart <= address {
        var found := shared.Load();
        if found {
          phase := Done(FoundElsewhere);
          return;
        }
        var record := Assemble(chaincode, c.secretKey);
        var xprv := crypto.encode(XprvHrp, record);
        if xprv.None? {
          phase := Done(Panicked);
          return;
        }
        shared.FetchAdd(threadCount % UpdateCount);
        shared.Store(true);
        phase := Done(Reported(Report(c.secretKey, xprv.value, address)));
        return;
      }
      if threadCount % UpdateCount == 0 {
        var found := shared.Load();
        if found {
          phase := Done(SawSuccess);
          return;
        }
        shared.FetchAdd(UpdateCount);
      }
      threadCount := threadCount + 1;
    }

    /**
     * The loop of `run`, over the inputs `ticks`: it stops when the worker
     * does, or when the inputs run out (`None`: still searching).
     */
    method Run(ticks: seq<Tick>) returns (halt: Option<Halt>)
      requires Valid()
      modifies this, shared
      ensures Valid()
      ensures State() == Search(target, crypto, old(State()), ticks)
      ensures halt == (if phase.Done? then Some(phase.halt) else None)
    {
      var i := 0;
      while i < |ticks| && phase.Searching?
        invariant 0 <= i <= |ticks|
        invariant Valid()
        invariant Search(target, crypto, old(State()), ticks) == Search(target, crypto, State(), ticks[i..])
      {
        assert ticks[i..][1..] == ticks[i + 1..];
        if ticks[i].othersStored {
          // another worker's `success.store(true)` lands before this iteration
          shared.Store(true);
        }
        Iterate(ticks[i].candidate, ticks[i].chaincode);
        i := i + 1;
      }
      halt := if phase.Done? then Some(phase.halt) else None;
    }
  }
}
