# go-radamsa session and driver, in Dafny

This project models the Go binding to libradamsa and its test command.

- **Session** (`radamsa.dfy`, module `Radamsa`). A `Radamsa` instance holds a seed, an in-place flag and an iteration counter. `New` applies functional options (`WithSeed`, `InPlace`) left to right.
- **Fuzz** runs two guards in order: an empty input gives "input buffer has no data", then a zero capacity gives "output buffer has 0 capacity". Only after both guards pass does it advance the counter and call the mutation engine.
- **The engine** reads the first `length` input bytes, the output capacity and the seed truncated to 32 bits (`C.uint(uint(seed))`). It writes its bytes into the output buffer.
- **Driver** (`goradamsa.dfy`, module `Driver`) models the `goradamsa` command. It checks its flags in a fixed order and joins its positional arguments with single spaces. Then it calls `Fuzz` `n` times on one session, reusing one 8192-byte output buffer. A failed call is logged and skipped. A successful call is emitted when `-iter` is 0 or equals the call's 1-based index.

The mutation engine (libradamsa, reached through cgo) is foreign code. Here it is a parameter `engine: Engine`, a total function from the input bytes, capacity and 32-bit seed to the bytes it writes. The engine never writing more than its capacity is an assumption about that foreign code, so it is stated as the precondition `Bounded(engine)`.

In the model, each call's result depends only on its input, capacity and seed, and the driver passes the same three values every time. So in the model every successful iteration of a run produces the same bytes, as `DriveClosedForm` and `Run` state. Whether the real engine keeps state between calls is outside the model (see the first line under "Left out").

A call rejected by a guard does not advance the counter: `Fuzz` returns before `r.iteration++` (radamsa.go:63-70). So the counter counts successful calls, not all calls (`Fuzz`, `DriveAccountsEveryCall`).

Go's integer widths are written out, for a 64-bit target:
- the seed is `int64`;
- `-iter` and `-n` are Go `int` (cmd/goradamsa/main.go:25-26), taken as 64 bits, so `Flags.iteration` and `Flags.n` are `int64`;
- the counter is a `uint64` that wraps (`Inc`);
- `uint(seed)` (radamsa.go:84) is Go's platform `uint`, taken as 64 bits in `ToUint`;
- the engine's seed is `uint32`, obtained from the seed by two's-complement reinterpretation and truncation. On a 32-bit target `uint` would be 32 bits, but the low 32 bits, and so `EngineSeed`, would be the same.

## Model

| member | source | states |
|---|---|---|
| `Radamsa.Inc` | radamsa.go:70 | `iteration++` on a uint64 is addition modulo 2^64; below the maximum it adds exactly one |
| `Radamsa.EngineSeed` | radamsa.go:84 | the seed handed to the engine is congruent to the int64 seed modulo 2^32, and equals it when the seed already fits in 32 bits |
| `Radamsa.EngineSeedCollides` | radamsa.go:84 | two seeds reach the engine as the same value exactly when they agree modulo 2^32 |
| `Radamsa.FuzzOutcome` | radamsa.go:62-76 | a zero length fails with EmptyInput whatever the capacity; a non-zero length with zero capacity fails with EmptyOutput; each failure carries its Go message; otherwise the call succeeds with the engine's bytes for `input[:length]`, the capacity and the 32-bit seed, and with a bounded engine the result fits the capacity |
| `Radamsa.FuzzOutcomeSeedLow32` | radamsa.go:75-85 | seeds that agree in their low 32 bits give the same Fuzz outcome on every input |
| `Radamsa.ApplyOptionsSnoc` | radamsa.go:25-27 | applying options one after another: a list followed by one more option is the list applied, then that option |
| `Radamsa.ApplyOptionsLastWins` | radamsa.go:25-47 | after the options, the seed is that of the last WithSeed (else unchanged), the flag that of the last InPlace (else unchanged), and the counter is untouched |
| `Radamsa.ConfigureNoOptions` | radamsa.go:15-30 | `New()` with no options yields seed 0, in-place off, iteration 0 |
| `Radamsa.ConfigureSeedThenInPlace` | cmd/goradamsa/main.go:56 | the driver's `New(WithSeed(seed), InPlace(inplace))` sets both fields as given, with iteration 0 |
| `Radamsa.RunEngine` | radamsa.go:78-86 | the engine's bytes for `input[:length]`, the capacity and the 32-bit seed are written at the start of `output`; their count is returned and is at most the capacity; the rest of `output` is unchanged |
| `Radamsa.Radamsa.constructor` | radamsa.go:24 | `&Radamsa{}` has seed 0, in-place off and iteration 0 |
| `Radamsa.Radamsa.Apply` | radamsa.go:36-47 | `WithSeed` sets only the seed; `InPlace` sets only the flag |
| `Radamsa.Radamsa.New` | radamsa.go:23-30 | a fresh session whose state is the zero state with every option applied in order |
| `Radamsa.Radamsa.Seed` | radamsa.go:50-52 | returns the stored seed and modifies nothing |
| `Radamsa.Radamsa.Iteration` | radamsa.go:55-57 | returns the stored counter and modifies nothing |
| `Radamsa.Radamsa.Fuzz` | radamsa.go:62-76 | a guard failure, whatever the buffers, returns `(0, error)` with the counter and output unchanged; a pass returns the engine's count with nil, advances the counter by one and puts the engine's bytes at the start of `output`; only the counter and `output` may change, so the seed, the in-place flag and (when distinct from `output`) the input buffer are never written |
| `Driver.ExitCode` | cmd/goradamsa/main.go:36-54 | a missing positional argument exits with 1, every other rejection with 0 |
| `Driver.Check` | cmd/goradamsa/main.go:31-54 | the run proceeds exactly when `-version` is off, `0 <= -iter <= -n`, `-n >= 1` and there is an argument; otherwise the first failing check in the order version, negative iteration, `n < 1`, iteration above n, missing argument is the reason |
| `Driver.JoinLength` | cmd/goradamsa/main.go:57 | the input holds every argument byte plus one separator between each two arguments |
| `Driver.JoinEmpty` | cmd/goradamsa/main.go:57 | with at least one argument, the input is empty exactly when the only argument is the empty string |
| `Driver.JoinSplit` | cmd/goradamsa/main.go:57 | splitting any byte string at its spaces and joining the pieces with spaces restores it |
| `Driver.SplitJoin` | cmd/goradamsa/main.go:57 | arguments without spaces are recovered by splitting the joined input, so the join loses nothing |
| `Driver.DriveClosedForm` | cmd/goradamsa/main.go:58-73 | on an empty input all n calls log EmptyInput, nothing is emitted and the counter stays 0; otherwise nothing is logged, the counter ends at n and the selected iterations emit in loop order, each tagged with its own 1-based index and carrying the engine's bytes |
| `Driver.DriveAccountsEveryCall` | cmd/goradamsa/main.go:60-65 | every one of the n calls is either logged as an error or counted by the session's iteration counter |
| `Driver.DriveEmitsAll` | cmd/goradamsa/main.go:66-71 | with `-iter 0` and a non-empty input there are exactly n results, the k-th tagged with iteration k |
| `Driver.DriveEmitsTarget` | cmd/goradamsa/main.go:66-71 | with `-iter k`, `1 <= k <= n`, and a non-empty input, the only result is that of the k-th call, tagged with iteration k |
| `Driver.DriveEmitsAtMostOne` | cmd/goradamsa/main.go:66 | with `-iter` of 1 or more, at most one result is emitted whatever the input |
| `Driver.DriveEmissionsFit` | cmd/goradamsa/main.go:58-71 | every emitted `xob[:n]` fits the 8192-byte buffer |
| `Driver.Run` | cmd/goradamsa/main.go:22-74 | a rejected configuration exits with its reason and code before any session is made; an accepted one runs exactly the n-call loop (`Drive`), which emits nothing and logs n errors when the only argument is empty, and otherwise emits the selected iterations' engine output with nothing logged and the counter at n |

## Left out

- The libradamsa mutation algorithm and the cgo call `C.radamsa` (radamsa.go:79-84) are foreign code. The engine is a parameter, and its bound `|result| <= capacity` is the assumption `Bounded(engine)`. Any hidden engine state is not modelled, so every call with the same arguments gives the same bytes.
- `C.init()` (radamsa.go:28) is a process-wide foreign initialisation with no visible effect on the session.
- The raw-pointer conversions through `unsafe.Pointer` (radamsa.go:80, 82) become preconditions on lengths.
- `Radamsa.Radamsa.Fuzz`: takes `length` and `capacity` as naturals, although Go's `int` could be negative. When both guards pass, it requires `length <= len(input)` and `capacity <= len(output)`. The Go code checks neither, and with a length that does not fit, the foreign engine could read or write past the buffer. The guard paths touch no buffer, so guard-failing calls may pass any buffers and lengths.
- `Radamsa.RunEngine`: the engine is assumed to write exactly the bytes it reports, at the start of the output buffer, and to leave the rest of the buffer alone.
- The commented-out in-place branch (radamsa.go:71-74) is dead code. The `inPlace` field is stored but never read.
- Flag parsing, the time-based default seed, `os.Exit`, and all printing are process I/O. This covers the usage and error messages, the version banner, `log.Println` of errors, the verbose header and `fmt.Printf` of results (cmd/goradamsa/main.go:23-34, 37-53, 63, 67-71). The parsed flags are the `Flags` argument. The outcome is the returned `Exit`:
  - the rejection reason with its exit code; or
  - the logged errors, plus the emitted results with the seed and iteration number the verbose header shows.
- The `-v` flag only controls printing of the header, so `Flags.verbose` has no effect in the model.
- Command-line arguments are modelled as byte strings. The conversion `[]byte(string)` is the identity on those bytes.
