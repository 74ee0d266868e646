/**
 * The goradamsa command (cmd/goradamsa/main.go): it validates its flags in a
 * fixed order, joins its positional arguments with spaces into one input,
 * and calls Fuzz `n` times on one session with one 8192-byte output buffer,
 * emitting either every successful result or only that of one chosen
 * iteration.
 *
 * Flag parsing and printing are not modelled: the parsed flags are a Flags
 * value, and what the command would print becomes the returned Exit value.
 */
module Driver {
  import opened Radamsa

  /** The size of the output buffer `xob`. */
  const BufferSize: nat := 8192

  /** The separator `strings.Join` is given. */
  const Space: byte := 0x20

  /**
   * The parsed command line: -seed, -inplace, -iter, -n, -v, -version and the
   * positional arguments. -iter and -n are Go `int`, taken as 64 bits.
   */
  datatype Flags = Flags(
    seed: int64, inPlace: bool, iteration: int64, n: int64,
    verbose: bool, version: bool, args: seq<seq<byte>>)

  /** Why the command stops before fuzzing. */
  datatype Rejection = VersionShown | NegativeIteration | NonPositiveN | IterationBeyondN | MissingInput

  datatype Verdict = Accept | Reject(reason: Rejection)

  /** The status the command exits with after a rejection. */
  function ExitCode(r: Rejection): (code: int)
    ensures code == 1 <==> r == MissingInput
    ensures code != 1 ==> code == 0
  {
    if r == MissingInput then 1 else 0
  }

  /**
   * The checks `main` runs before fuzzing, in order: -version, a negative
   * -iter, an -n below 1, an -iter above -n, no positional argument. The
   * first one that applies decides.
   */
  function Check(f: Flags): (v: Verdict)
    ensures v == Accept <==> !f.version && 0 <= f.iteration <= f.n && 1 <= f.n && |f.args| > 0
    ensures v == Reject(VersionShown) <==> f.version
    ensures v == Reject(NegativeIteration) <==> !f.version && f.iteration < 0
    ensures v == Reject(NonPositiveN) <==> !f.version && 0 <= f.iteration && f.n < 1
    ensures v == Reject(IterationBeyondN) <==> !f.version && 0 <= f.iteration && 1 <= f.n < f.iteration
    ensures v == Reject(MissingInput) <==> !f.version && 0 <= f.iteration <= f.n && 1 <= f.n && |f.args| == 0
  {
    if f.version then Reject(VersionShown)
    else if f.iteration < 0 then Reject(NegativeIteration)
    else if f.n < 1 then Reject(NonPositiveN)
    else if f.iteration > f.n then Reject(IterationBeyondN)
    else if |f.args| == 0 then Reject(MissingInput)
    else Accept
  }

  /** `strings.Join(args, " ")`, as bytes. */
  function Join(args: seq<seq<byte>>): seq<byte>
    decreases |args|
  {
    if |args| == 0 then []
    else if |args| == 1 then args[0]
    else args[0] + [Space] + Join(args[1..])
  }

  /** The total number of bytes in the arguments. */
  function TotalLength(args: seq<seq<byte>>): nat
    decreases |args|
  {
    if args == [] then 0 else |args[0]| + TotalLength(args[1..])
  }

  /** The joined input holds every argument byte plus one separator between each two arguments. */
  lemma {:induction false} JoinLength(args: seq<seq<byte>>)
    requires |args| > 0
    ensures |Join(args)| == TotalLength(args) + |args| - 1
    decreases |args|
  {
    if |args| > 1 {
      JoinLength(args[1..]);
    }
  }

  /** The joined input is empty exactly when the only argument is empty. */
  lemma JoinEmpty(args: seq<seq<byte>>)
    requires |args| > 0
    ensures Join(args) == [] <==> args == [[]]
  {
  }

  /** The position of the first `x` in `s`. */
  function IndexOf(s: seq<byte>, x: byte): (k: nat)
    requires x in s
    ensures k < |s| && s[k] == x && x !in s[..k]
    decreases |s|
  {
    if s[0] == x then 0 else 1 + IndexOf(s[1..], x)
  }

  /** The pieces of `s` between its spaces: the reference inverse of Join. */
  function Split(s: seq<byte>): (parts: seq<seq<byte>>)
    ensures |parts| > 0
    ensures forall i :: 0 <= i < |parts| ==> Space !in parts[i]
    decreases |s|
  {
    if Space in s then
      var k := IndexOf(s, Space);
      [s[..k]] + Split(s[k + 1..])
    else [s]
  }

  /** Splitting a byte string at its spaces and joining the pieces gives it back. */
  lemma {:induction false} JoinSplit(s: seq<byte>)
    ensures Join(Split(s)) == s
    decreases |s|
  {
    if Space in s {
      var k := IndexOf(s, Space);
      var rest := Split(s[k + 1..]);
      assert Split(s) == [s[..k]] + rest;
      assert ([s[..k]] + rest)[1..] == rest;
      JoinSplit(s[k + 1..]);
      assert s == s[..k] + [Space] + s[k + 1..];
    }
  }

  /** A space-free piece followed by a space is split off whole. */
  lemma SplitAtFirstSpace(a: seq<byte>, t: seq<byte>)
    requires Space !in a
    ensures Split(a + [Space] + t) == [a] + Split(t)
  {
    var s := a + [Space] + t;
    assert s[|a|] == Space;
    var k := IndexOf(s, Space);
    assert k == |a|;
    assert s[..k] == a && s[k + 1..] == t;
  }

  /** Joining arguments that hold no space loses nothing: splitting the input gives them back. */
  lemma {:induction false} SplitJoin(args: seq<seq<byte>>)
    requires |args| > 0
    requires forall i :: 0 <= i < |args| ==> Space !in args[i]
    ensures Split(Join(args)) == args
    decreases |args|
  {
    if |args| == 1 {
      assert args == [args[0]];
    } else {
      SplitAtFirstSpace(args[0], Join(args[1..]));
      SplitJoin(args[1..]);
      assert args == [args[0]] + args[1..];
    }
  }

  /** One emitted result: the verbose header's seed and iteration number, and the bytes `xob[:n]`. */
  datatype Emission = Emission(seed: int64, iteration: uint64, bytes: seq<byte>)

  /** What the fuzz loop has done so far: results emitted, errors logged, and the session's counter. */
  datatype Trace = Trace(emitted: seq<Emission>, logged: seq<Error>, iteration: uint64)

  /** How a run of the command ends. */
  datatype Exit = Rejected(code: int, reason: Rejection) | Finished(trace: Trace)

  /**
   * The first `calls` iterations of the fuzz loop on a fresh session with this
   * seed: each call either logs its error and emits nothing, or advances the
   * counter and emits when the target is 0 or equals the call's 1-based index.
   */
  function Drive(input: seq<byte>, seed: int64, target: int, calls: nat, engine: Engine): Trace
    decreases calls
  {
    if calls == 0 then Trace([], [], 0)
    else
      var t := Drive(input, seed, target, calls - 1, engine);
      match FuzzOutcome(input, |input|, BufferSize, seed, engine)
      case Err(e) => t.(logged := t.logged + [e])
      case Ok(bytes) =>
        var it := Inc(t.iteration);
        var emitted := if target == 0 || target == calls then t.emitted + [Emission(seed, it, bytes)] else t.emitted;
        Trace(emitted, t.logged, it)
  }

  /** The bytes every successful call writes: the engine's result for the whole input, 8192 and the seed. */
  function Produced(input: seq<byte>, seed: int64, engine: Engine): seq<byte> {
    engine(input, BufferSize, EngineSeed(seed))
  }

  /** The 1-based loop indices whose result is emitted: all of them for target 0, else the target if the loop reaches it. */
  function Selected(target: int, calls: nat): seq<nat> {
    if target == 0 then seq(calls, k => k + 1)
    else if 1 <= target <= calls then [target]
    else []
  }

  /** The emissions of a loop whose every call succeeds. */
  function Expected(seed: int64, target: int, calls: nat, bytes: seq<byte>): seq<Emission>
    requires calls <= MaxUint64
  {
    var ks := Selected(target, calls);
    seq(|ks|, k requires 0 <= k < |ks| => Emission(seed, ks[k], bytes))
  }

  /**
   * The loop in closed form. On an empty input every call is rejected: each
   * logs "input buffer has no data", nothing is emitted and the counter stays
   * 0. Otherwise every call succeeds, nothing is logged, the counter equals
   * the number of calls and the selected iterations emit, in loop order,
   * each tagged with its own loop index.
   */
  lemma {:induction false} DriveClosedForm(input: seq<byte>, seed: int64, target: int, calls: nat, engine: Engine)
    requires calls <= MaxUint64
    ensures |input| == 0 ==> Drive(input, seed, target, calls, engine) == Trace([], seq(calls, _ => EmptyInput), 0)
    ensures |input| > 0 ==> Drive(input, seed, target, calls, engine)
                            == Trace(Expected(seed, target, calls, Produced(input, seed, engine)), [], calls)
    decreases calls
  {
    if calls > 0 {
      DriveClosedForm(input, seed, target, calls - 1, engine);
      var bytes := Produced(input, seed, engine);
      if |input| == 0 {
        assert seq(calls, _ => EmptyInput) == seq(calls - 1, _ => EmptyInput) + [EmptyInput];
      } else {
        assert input[..|input|] == input;
        var prev, cur := Expected(seed, target, calls - 1, bytes), Expected(seed, target, calls, bytes);
        if target == 0 {
          assert cur == prev + [Emission(seed, calls, bytes)];
        } else if target == calls {
          assert prev == [] && cur == [Emission(seed, calls, bytes)];
        } else {
          assert cur == prev;
        }
      }
    }
  }

  /** Every call is accounted for: it was logged as an error or it advanced the counter. */
  lemma {:induction false} DriveAccountsEveryCall(input: seq<byte>, seed: int64, target: int, calls: nat, engine: Engine)
    requires calls <= MaxUint64
    ensures |Drive(input, seed, target, calls, engine).logged| + Drive(input, seed, target, calls, engine).iteration == calls
  {
    DriveClosedForm(input, seed, target, calls, engine);
  }

  /** With target 0 and a non-empty input, each of the `calls` iterations emits, in order, tagged 1 to `calls`. */
  lemma {:induction false} DriveEmitsAll(input: seq<byte>, seed: int64, calls: nat, engine: Engine)
    requires |input| > 0 && calls <= MaxUint64
    ensures var e := Drive(input, seed, 0, calls, engine).emitted;
      |e| == calls &&
      forall k :: 0 <= k < |e| ==> e[k] == Emission(seed, k + 1, Produced(input, seed, engine))
  {
    DriveClosedForm(input, seed, 0, calls, engine);
  }

  /** With a target `k` in 1..calls and a non-empty input, exactly one result is emitted: that of the k-th call. */
  lemma {:induction false} DriveEmitsTarget(input: seq<byte>, seed: int64, target: int, calls: nat, engine: Engine)
    requires |input| > 0 && 1 <= target <= calls <= MaxUint64
    ensures Drive(input, seed, target, calls, engine).emitted == [Emission(seed, target, Produced(input, seed, engine))]
  {
    DriveClosedForm(input, seed, target, calls, engine);
  }

  /** With a target of 1 or more, at most one result is emitted, whatever the input. */
  lemma {:induction false} DriveEmitsAtMostOne(input: seq<byte>, seed: int64, target: int, calls: nat, engine: Engine)
    requires target >= 1 && calls <= MaxUint64
    ensures |Drive(input, seed, target, calls, engine).emitted| <= 1
  {
    DriveClosedForm(input, seed, target, calls, engine);
  }

  /** Every emitted result fits the 8192-byte output buffer. */
  lemma {:induction false} DriveEmissionsFit(input: seq<byte>, seed: int64, target: int, calls: nat, engine: Engine)
    requires Bounded(engine) && calls <= MaxUint64
    ensures forall e :: e in Drive(input, seed, target, calls, engine).emitted ==> |e.bytes| <= BufferSize
  {
    DriveClosedForm(input, seed, target, calls, engine);
  }

  /**
   * `main`: check the flags, then fuzz the joined arguments `n` times with a
   * session configured by `WithSeed(seed)` and `InPlace(inplace)`, reusing
   * one 8192-byte output buffer. A Fuzz error is logged and the loop goes on;
   * a success is emitted as `xob[:n]` when `-iter` is 0 or names this call.
   */
  method Run(f: Flags, engine: Engine) returns (x: Exit)
    requires Bounded(engine)
    ensures Check(f).Reject? ==> x == Rejected(ExitCode(Check(f).reason), Check(f).reason)
    ensures Check(f) == Accept ==> x == Finished(Drive(Join(f.args), f.seed, f.iteration, f.n, engine))
    ensures Check(f) == Accept && f.args == [[]] ==> x == Finished(Trace([], seq(f.n, _ => EmptyInput), 0))
    ensures Check(f) == Accept && f.args != [[]] ==>
      x == Finished(Trace(Expected(f.seed, f.iteration, f.n, Produced(Join(f.args), f.seed, engine)), [], f.n))
  {
    var verdict := Check(f);
    if verdict.Reject? {
      return Rejected(ExitCode(verdict.reason), verdict.reason);
    }
    var r := Radamsa.New([WithSeed(f.seed), InPlace(f.inPlace)]);
    ConfigureSeedThenInPlace(f.seed, f.inPlace);
    var input := Join(f.args);
    var xib := new byte[|input|](k requires 0 <= k < |input| => input[k]);
    var xob := new byte[BufferSize];
    var emitted: seq<Emission> := [];
    var logged: seq<Error> := [];
    for i := 0 to f.n
      invariant xib[..] == input
      invariant xob.Length == BufferSize
      invariant r.seed == f.seed
      invariant Trace(emitted, logged, r.iteration) == Drive(input, f.seed, f.iteration, i, engine)
    {
      var written, err := r.Fuzz(xib, xib.Length, xob, xob.Length, engine);
      if err != Nil {
        logged := logged + [err];
        continue;
      }
      if f.iteration == 0 || f.iteration == i + 1 {
        var seed := r.Seed();
        var iteration := r.Iteration();
        emitted := emitted + [Emission(seed, iteration, xob[..written])];
      }
    }
    x := Finished(Trace(emitted, logged, r.iteration));
    JoinEmpty(f.args);
    DriveClosedForm(input, f.seed, f.iteration, f.n, engine);
  }
}
