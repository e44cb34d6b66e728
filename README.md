# witnet-vanity: a Dafny model of the vanity-address search core

The program searches for a secp256k1 key pair whose Bech32 address begins with
`hrp + '1' + vanity`. `main` chooses the number of worker threads and checks
that the vanity string uses only Bech32 data symbols. Each worker (`run`) then
loops. It generates a key pair and hashes the public key to a 20-byte PKH
(`derive_pkh`). It encodes the PKH as an address and compares the address with
the target prefix. A worker that finds a match checks the shared `success`
flag. If the flag is clear, the worker assembles a 66-byte extended-key record
(depth 0, chain code, zero pad, secret key), prints the result and sets the
flag. Every 500 iterations a worker adds a batch of 500 to the shared attempt
counter `count` and polls the flag.

The model has one module per component:

- `Bech32` (bech32.dfy): the alphabet, the separator, valid vanity strings.
- `KeyDerivation` (key_derivation.dfy): `derive_pkh`, filling a zeroed 20-byte buffer in place.
- `ExtendedKey` (extended_key.dfy): the 66-byte record, filled in place by `copy_from_slice`, and its field accessors.
- `SharedSearchState` (shared_state.dfy): a class with the shared `count` (a `u64` that wraps at 2^64, as `fetch_add` does) and `success`. Each method is one atomic operation.
- `SearchWorker` (search_worker.dfy):
  - `Iteration` is one pass of the loop body, written as a function on a `Snapshot` (`thread_count`, `count`, `success`, phase).
  - `Search` is a run of such passes over a finite input sequence.
  - Lemmas prove the loop's accounting and termination rules.
  - The class `Worker` does the same steps on the shared object and is proved to follow `Iteration` and `Search`.
- `Launcher` (launcher.dfy): how `main` picks the thread count, validates the vanity string and creates one worker per thread.
- `Bytes` and `Wrappers`: `u8`, `u64`, wrapping addition, `copy_from_slice`, Option and Result.

Abstract inputs:

- SHA-256 is a parameter: any total function to 32-byte digests.
- `bech32::encode(.., to_base32())` is a parameter returning `Option<string>`. `None` is the `Err` on which `.unwrap()` panics, which is possible because `main` never validates `hrp`. Nothing is assumed about the form of the string it returns. A reported address starts with the target because the worker compares it, not because of any assumption about `encode`.
- `str::parse::<usize>` is a parameter returning `Option<u64>`.
- `num_cpus::get()`, the generated key pairs, the chain codes and other workers' stores to `success` are plain inputs. In the model, one iteration's inputs are a `Tick`.
- Other workers are assumed to act on this worker only by storing `true` in `success` before one of its iterations (`SearchWorker.Interfere`, applied when `Tick.othersStored` holds). This is an assumption of the model about the environment, not a proved property.

Points where the code's behaviour deserves a note:

- The claim of a result is a plain `load` of `success` (src/main.rs:120) followed later by a `store(true)` (src/main.rs:152), not a compare-and-swap. Two workers can both pass the load and both report. The model proves only what holds for one worker: the flag is only ever written `true`, and a worker that reports has set it. It makes no exactly-one-winner claim.
- `--threads 0` parses, and `min(0, num_cpus)` is 0, so no worker starts and the program exits without a result (`Launcher.ZeroThreadsAccepted`).
- The thread count is checked before the vanity string. When both are bad, only the thread-count error is reported.
- Let a worker win at `thread_count = k`, having made k + 1 attempts. From its start it has then added 500·ceil(k/500) + k % 500 to the counter (`SearchWorker.SearchFromStart`). That is 499 too many when k % 500 ≠ 0 and one too few when k % 500 = 0. A win on the very first iteration adds nothing (`Launcher.EmptyVanityWinsFirstIteration`). The code's own comment calls this count approximate, so it is not listed as a defect.

## Model

| member | source | states |
|---|---|---|
| Bytes.WrappingAdd | src/main.rs:142 | adding to the `u64` counter is exact below 2^64 and wraps to a smaller value past it |
| Bytes.CopyFromSlice | src/main.rs:135-136 | `copy_from_slice` overwrites exactly the target range with the source and keeps every other byte |
| Bech32.CharsetIsAlphabet | src/main.rs:14-17 | the data alphabet has 32 pairwise-distinct symbols |
| Bech32.SeparatorNotInCharset | src/main.rs:14-19 | the separator `'1'` is not a data symbol |
| Bech32.ValidVanityHasNoSeparator | src/main.rs:14-19 | a vanity string that passes validation never contains the separator |
| KeyDerivation.DerivePkh | src/main.rs:22-31 | the 20-byte buffer ends up holding exactly the first 20 bytes of the digest, so equal keys give equal PKHs |
| ExtendedKey.Assemble | src/main.rs:125-136 | the buffer is 66 bytes: byte 0 is 0, bytes 1..33 the chain code, byte 33 is 0, bytes 34..66 the secret key |
| ExtendedKey.LayoutRoundTrip | src/main.rs:125-136 | reading depth, chain code and secret key back from a record gives 0 and the two inputs |
| ExtendedKey.LayoutInjective | src/main.rs:125-136 | two records are equal only if their chain codes and secret keys are |
| SharedSearchState.Shared.constructor | src/main.rs:253-254 | the counter starts at 0 and the flag clear |
| SharedSearchState.Shared.FetchAdd | src/main.rs:142 | `fetch_add` adds with wrap-around and leaves the flag alone |
| SharedSearchState.Shared.Load | src/main.rs:120 | `load` returns the flag's current value |
| SharedSearchState.Shared.Store | src/main.rs:152 | `store` sets the flag and leaves the counter alone |
| SearchWorker.Iteration | src/main.rs:111-170 | one iteration, with the outcome fixed by the inputs: an address that fails to encode, or a winning record that fails to encode, panics, and nothing else does; a matching address with the flag set stops the worker without a report and without changing `count`; a matching address with the flag clear reports that very address, the given secret key and the encoded record, sets the flag and adds `thread_count % 500`; a non-matching iteration stops exactly on a boundary with the flag set, and otherwise goes on, adding 500 on a boundary (including `thread_count == 0`) and nothing elsewhere; the flag is never cleared; `thread_count` grows by 1 exactly when the worker goes on |
| SearchWorker.BoundariesClosedForm | src/main.rs:157-162 | the number of batch boundaries in a range of iterations equals the difference of ceil(m / 500) at its ends |
| SearchWorker.BoundariesFromStart | src/main.rs:157-162 | a fresh worker passes ceil(k / 500) boundaries in k iterations, at least one if k > 0, so 500 per boundary covers at least k attempts |
| SearchWorker.SearchKeepsSuccess | src/main.rs:120-122 | once the flag is set it stays set for the rest of any run |
| SearchWorker.StopsByNextBoundary | src/main.rs:157-159 | a worker that sees the flag set stops at the latest on the next multiple of 500, that is within `(500 - thread_count % 500) % 500 + 1` iterations |
| SearchWorker.SearchSuccessOrigin | src/main.rs:152-153 | the flag is set at the end of a run only if it was set before, this worker reported, or another worker stored it before one of the iterations the run actually performed |
| SearchWorker.SearchKeepsReportSound | src/main.rs:146-149 | any reported address starts with `hrp + '1' + vanity`, and the flag is then set |
| SearchWorker.SearchAccounting | src/main.rs:157-170 | over a run, `thread_count` grows by the number of non-stopping iterations (by all of them if the worker is still searching), and `count` by 500 per boundary among them plus `thread_count % 500` on a win, modulo 2^64 |
| SearchWorker.SearchFromStart | src/main.rs:107-108 | from `thread_count = 0`, `count` has grown by 500·ceil(k / 500), plus k % 500 if the run ended in a report, where k is the final `thread_count`, that is the number of iterations that did not stop |
| SearchWorker.SearchCountNeverDecreases | src/main.rs:161 | when the start count plus 500 for each input iteration is below 2^64, a run never lowers the counter |
| SearchWorker.Worker.constructor | src/main.rs:104-108 | `address_start = hrp + '1' + vanity`, `thread_count = 0`, searching |
| SearchWorker.Worker.Iterate | src/main.rs:112-170 | one pass of the loop body on the shared object produces exactly the state `Iteration` describes |
| SearchWorker.Worker.Run | src/main.rs:111-171 | the loop produces exactly the state `Search` describes and returns why it stopped |
| Launcher.SelectThreads | src/main.rs:220-230 | the thread count never exceeds `num_cpus`; it is `num_cpus` without the flag, the smaller of the parsed value and `num_cpus` with it, and an error carrying the argument if it does not parse |
| Launcher.FindInvalidChar | src/main.rs:232-242 | the loop finds nothing iff every character is a Bech32 data symbol; otherwise it returns the first character that is not |
| Launcher.Prepare | src/main.rs:220-242 | a thread-count error is reported first; otherwise an invalid vanity string is rejected with its first bad character; work starts iff both checks pass, with the target `(hrp, vanity)` and at most `num_cpus` threads |
| Launcher.SetUpWorkers | src/main.rs:253-266 | a cleared counter and flag and the requested number of distinct fresh workers, all sharing them and all at their start state |
| Launcher.AddressStartSeparator | src/main.rs:105 | after validation, the only separator in `hrp + '1' + vanity` after the hrp is the one right after it |
| Launcher.ClampsToCpus | src/main.rs:224 | `--threads 999` on 8 CPUs gives 8 |
| Launcher.ZeroThreadsAccepted | src/main.rs:224 | `--threads 0` parses and gives 0 threads |
| Launcher.RejectsB | src/main.rs:233-234 | every vanity string containing `b` is invalid and has a first invalid character, so `Prepare` never starts a search for it |
| Launcher.FirstInvalidExists | src/main.rs:233-240 | a string with an invalid character at position k has a first invalid character at or before k, which is what the loop reports |
| Launcher.EmptyVanityWinsFirstIteration | src/main.rs:105-153 | with hrp `wit`, an empty vanity string, a clear flag and a first key that the encoder (by explicit assumption) turns into an address starting with `wit1`, a fresh worker reports that address on its first iteration, sets the flag and leaves `count` unchanged |

## Left out

- The progress bar: `ExtProgressBar`, `epb.tick`/`update`/`finish`, and the progress update that worker 0 makes every 1000 iterations (src/main.rs:33-93, 145, 162, 164-168). It is UI and only reads `count`. The worker's `id` serves only this and is not modelled.
- `estimated_runs = 32f64.powi(len)` (src/main.rs:249): floating point, used only for display.
- Command-line parsing with `clap` (src/main.rs:176-217): a foreign library. `vanity`, `hrp` and the optional thread argument are inputs.
- Key generation, `thread_rng`, SHA-256 and `bech32::encode`/`to_base32` are foreign code. They are inputs or function parameters, as described above. The hasher's `new`/`input`/`result` sequence is modelled as one call.
- Spawning and joining threads, `Arc`, and memory orderings (src/main.rs:253-269) are concurrency, which is not modelled. Other workers act on a worker only through `Tick.othersStored`, a store of `true` landing before an iteration. Their `fetch_add`s on `count` are not modelled because they do not affect the worker's control flow. No claim is made across threads, and no exactly-one-winner claim at all.
- `println!`/`eprintln!` output is not modelled. A report is the `Report` value, and an error is the `Launch` value.
- SearchWorker.Search: the real loop is unbounded. The model runs it over a finite sequence of inputs and reports "still searching" when they run out.
- SearchWorker.Worker.Run: bounded by its input sequence, as `Search` is.
- SearchWorker.Iteration: `thread_count` is an unbounded `nat`. Its overflow after 2^64 iterations (a panic or a wrap, depending on the build) is not modelled.
- A panic in a worker (`Halt.Panicked`) ends that worker only. How it then reaches `main` through `join().unwrap()` is not modelled.
