/**
 * The fuzz session of the Go binding to libradamsa (radamsa.go): a seed, an
 * in-place flag and an iteration counter, functional options that configure
 * them, and Fuzz, which checks its buffer arguments before it hands the input
 * to the mutation engine.
 *
 * libradamsa itself is foreign code. It appears here as a parameter of type
 * Engine: a function from the input bytes, the output capacity and a 32-bit
 * seed to the bytes the engine writes.
 */
module Radamsa {

  /** Go's int64 and uint64, and the C `unsigned int` the engine takes its seed as. */
  type int64 = x: int | -0x8000_0000_0000_0000 <= x < 0x8000_0000_0000_0000
  type uint64 = x: int | 0 <= x < 0x1_0000_0000_0000_0000
  type uint32 = x: int | 0 <= x < 0x1_0000_0000
  type byte = bv8

  const MaxUint64: uint64 := 0xFFFF_FFFF_FFFF_FFFF

  /** `x++` on a uint64: wraps to 0 after the largest value. */
  function Inc(x: uint64): (y: uint64)
    ensures y == (x + 1) % 0x1_0000_0000_0000_0000
    ensures x < MaxUint64 ==> y == x + 1
  {
    if x == MaxUint64 then 0 else x + 1
  }

  /** Go's `uint(seed)` on a 64-bit target: the two's-complement bits of an int64 read as a uint64. */
  function ToUint(x: int64): uint64 {
    x % 0x1_0000_0000_0000_0000
  }

  /** cgo's `C.uint(u)`: the low 32 bits of a uint64. */
  function ToCUint(u: uint64): uint32 {
    u % 0x1_0000_0000
  }

  /** The seed the engine receives: `C.uint(uint(seed))`. */
  function EngineSeed(seed: int64): (s: uint32)
    ensures (seed - s) % 0x1_0000_0000 == 0
    ensures 0 <= seed < 0x1_0000_0000 ==> s == seed
  {
    ToCUint(ToUint(seed))
  }

  /** Two seeds reach the engine as the same value exactly when they agree in their low 32 bits. */
  lemma EngineSeedCollides(a: int64, b: int64)
    ensures EngineSeed(a) == EngineSeed(b) <==> (a - b) % 0x1_0000_0000 == 0
  {
  }

  /**
   * libradamsa's `radamsa(ptr, len, target, max, seed)` as seen from Go: the
   * bytes it writes into the target buffer for the given input bytes, capacity
   * and seed. Any internal state of the engine is not modelled.
   */
  type Engine = (seq<byte>, nat, uint32) -> seq<byte>

  /** The engine writes at most the capacity it is given (an assumption about the foreign code). */
  ghost predicate Bounded(engine: Engine) {
    forall input, capacity, seed :: |engine(input, capacity, seed)| <= capacity
  }

  /** The `error` Fuzz returns: nil, or one of its two guard failures. */
  datatype Error = Nil | EmptyInput | EmptyOutput {
    function Message(): string {
      match this
      case Nil => ""
      case EmptyInput => "input buffer has no data"
      case EmptyOutput => "output buffer has 0 capacity"
    }
  }

  /** What one Fuzz call does: fail a guard, or produce the engine's bytes. */
  datatype Outcome = Ok(bytes: seq<byte>) | Err(error: Error)

  /**
   * The outcome of `Fuzz(input, length, output, capacity)` on a session with
   * this seed: the empty-input guard first, then the zero-capacity guard, then
   * the engine on the first `length` input bytes. The guards look at no buffer,
   * so only a call that passes both needs `length` within the input.
   */
  function FuzzOutcome(input: seq<byte>, length: nat, capacity: nat, seed: int64, engine: Engine): (o: Outcome)
    requires length != 0 && capacity != 0 ==> length <= |input|
    ensures o == Err(EmptyInput) <==> length == 0
    ensures o == Err(EmptyOutput) <==> length != 0 && capacity == 0
    ensures o.Err? ==> o.error.Message() == (if length == 0 then "input buffer has no data" else "output buffer has 0 capacity")
    ensures o.Ok? <==> length != 0 && capacity != 0
    ensures o.Ok? ==> o.bytes == engine(input[..length], capacity, EngineSeed(seed))
    ensures o.Ok? && Bounded(engine) ==> |o.bytes| <= capacity
  {
    if length == 0 then Err(EmptyInput)
    else if capacity == 0 then Err(EmptyOutput)
    else Ok(engine(input[..length], capacity, EngineSeed(seed)))
  }

  /** Seeds that agree in their low 32 bits give the same Fuzz outcome on every input. */
  lemma FuzzOutcomeSeedLow32(input: seq<byte>, length: nat, capacity: nat, a: int64, b: int64, engine: Engine)
    requires length != 0 && capacity != 0 ==> length <= |input|
    requires (a - b) % 0x1_0000_0000 == 0
    ensures FuzzOutcome(input, length, capacity, a, engine) == FuzzOutcome(input, length, capacity, b, engine)
  {
    EngineSeedCollides(a, b);
  }

  /** The three fields of a session, as a value. */
  datatype SessionState = SessionState(seed: int64, inPlace: bool, iteration: uint64)

  /** Go's zero value `Radamsa{}`. */
  const Zero := SessionState(0, false, 0)

  /** A functional option: `WithSeed(seed)` or `InPlace(inPlace)`. */
  datatype Option = WithSeed(seed: int64) | InPlace(inPlace: bool)

  function ApplyOption(s: SessionState, opt: Option): SessionState {
    match opt
    case WithSeed(seed) => s.(seed := seed)
    case InPlace(inPlace) => s.(inPlace := inPlace)
  }

  /** The options applied to a session one after the other, first to last. */
  function ApplyOptions(s: SessionState, opts: seq<Option>): SessionState
    decreases |opts|
  {
    if opts == [] then s else ApplyOptions(ApplyOption(s, opts[0]), opts[1..])
  }

  /** The state `New(opts...)` produces. */
  function Configure(opts: seq<Option>): SessionState {
    ApplyOptions(Zero, opts)
  }

  /** The seed of the last WithSeed option, or `d` when there is none. */
  function LastSeed(opts: seq<Option>, d: int64): int64
    decreases |opts|
  {
    if opts == [] then d
    else if opts[|opts| - 1].WithSeed? then opts[|opts| - 1].seed
    else LastSeed(opts[..|opts| - 1], d)
  }

  /** The flag of the last InPlace option, or `d` when there is none. */
  function LastInPlace(opts: seq<Option>, d: bool): bool
    decreases |opts|
  {
    if opts == [] then d
    else if opts[|opts| - 1].InPlace? then opts[|opts| - 1].inPlace
    else LastInPlace(opts[..|opts| - 1], d)
  }

  /** Applying one more option to a list of applied options is applying it last. */
  lemma {:induction false} ApplyOptionsSnoc(s: SessionState, opts: seq<Option>, opt: Option)
    ensures ApplyOptions(s, opts + [opt]) == ApplyOption(ApplyOptions(s, opts), opt)
    decreases |opts|
  {
    if opts != [] {
      assert (opts + [opt])[1..] == opts[1..] + [opt];
      ApplyOptionsSnoc(ApplyOption(s, opts[0]), opts[1..], opt);
    }
  }

  /** Options are applied left to right: the last WithSeed and the last InPlace win, and no option touches the counter. */
  lemma {:induction false} ApplyOptionsLastWins(s: SessionState, opts: seq<Option>)
    ensures ApplyOptions(s, opts) == SessionState(LastSeed(opts, s.seed), LastInPlace(opts, s.inPlace), s.iteration)
    decreases |opts|
  {
    if opts != [] {
      var init, last := opts[..|opts| - 1], opts[|opts| - 1];
      assert opts == init + [last];
      ApplyOptionsSnoc(s, init, last);
      ApplyOptionsLastWins(s, init);
    }
  }

  /** `New()` without options gives seed 0, in-place off and iteration 0. */
  lemma ConfigureNoOptions()
    ensures Configure([]) == SessionState(0, false, 0)
  {
  }

  /** The options the command-line driver passes: both fields are set as given. */
  lemma ConfigureSeedThenInPlace(seed: int64, inPlace: bool)
    ensures Configure([WithSeed(seed), InPlace(inPlace)]) == SessionState(seed, inPlace, 0)
  {
    var opts := [WithSeed(seed), InPlace(inPlace)];
    ApplyOptionsLastWins(Zero, opts);
    assert opts[..1] == [WithSeed(seed)];
  }

  /**
   * Go's `fuzz`: call the engine on `input[:length]` and let it write into
   * `output`. The engine writes its bytes at the start of the output buffer;
   * the bytes after them are left as they were.
   */
  method RunEngine(input: array<byte>, length: nat, output: array<byte>, capacity: nat, seed: int64, engine: Engine)
    returns (written: nat)
    requires 0 < length <= input.Length && 0 < capacity <= output.Length
    requires Bounded(engine)
    modifies output
    ensures written <= capacity
    ensures output[..written] == engine(old(input[..length]), capacity, EngineSeed(seed))
    ensures output[written..] == old(output[written..])
  {
    var bytes := engine(input[..length], capacity, EngineSeed(seed));
    written := |bytes|;
    for j := 0 to written
      invariant output[..j] == bytes[..j]
      invariant output[j..] == old(output[j..])
    {
      output[j] := bytes[j];
    }
  }

  /** The state of one fuzzer instance (`type Radamsa struct`). */
  class Radamsa {
    var seed: int64
    var inPlace: bool
    var iteration: uint64

    function State(): SessionState
      reads this
    {
      SessionState(seed, inPlace, iteration)
    }

    /** `&Radamsa{}`: every field at its zero value. */
    constructor ()
      ensures State() == Zero
    {
      seed, inPlace, iteration := 0, false, 0;
    }

    /** Run one option against this session (`opt(r)`). */
    method Apply(opt: Option)
      modifies this
      ensures State() == ApplyOption(old(State()), opt)
    {
      match opt
      case WithSeed(s) => seed := s;
      case InPlace(b) => inPlace := b;
    }

    /** `New(opts...)`: a zero session with each option applied in turn. */
    static method New(opts: seq<Option>) returns (r: Radamsa)
      ensures fresh(r)
      ensures r.State() == Configure(opts)
    {
      r := new Radamsa();
      for i := 0 to |opts|
        invariant r.State() == ApplyOptions(Zero, opts[..i])
      {
        assert opts[..i + 1] == opts[..i] + [opts[i]];
        ApplyOptionsSnoc(Zero, opts[..i], opts[i]);
        r.Apply(opts[i]);
      }
      assert opts[..|opts|] == opts;
    }

    /** The configured seed; the empty frame means the session is unchanged. */
    method Seed() returns (s: int64)
      ensures s == seed
    {
      s := seed;
    }

    /** The current iteration number; the empty frame means the session is unchanged. */
    method Iteration() returns (n: uint64)
      ensures n == iteration
    {
      n := iteration;
    }

    /**
     * Fuzz `input[:length]` into `output`, whose capacity is `capacity`.
     * A guard failure returns `(0, error)` and changes nothing; otherwise the
     * counter goes up by one and the engine's byte count is returned with a
     * nil error. The seed and the in-place flag are never written, and the
     * in-place flag is never read: the result goes to `output`. The guards
     * touch neither buffer, so the lengths need to fit the buffers only on a
     * call that passes both guards.
     */
    method Fuzz(input: array<byte>, length: nat, output: array<byte>, capacity: nat, engine: Engine)
      returns (written: nat, err: Error)
      requires length != 0 && capacity != 0 ==> length <= input.Length && capacity <= output.Length
      requires Bounded(engine)
      modifies this`iteration, output
      ensures var o := FuzzOutcome(old(input[..]), length, capacity, seed, engine);
        if o.Err? then
          written == 0 && err == o.error && iteration == old(iteration) && output[..] == old(output[..])
        else
          written == |o.bytes| && err == Nil && iteration == Inc(old(iteration))
          && output[..written] == o.bytes && output[written..] == old(output[written..])
    {
      if length == 0 {
        return 0, EmptyInput;
      }
      if capacity == 0 {
        return 0, EmptyOutput;
      }
      iteration := Inc(iteration);
      assert old(input[..])[..length] == old(input[..length]);
      written := RunEngine(input, length, output, capacity, seed, engine);
      err := Nil;
    }
  }
}
