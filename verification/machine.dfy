/** The stack machine: instructions, frames, and the interpreter's transition function.

    The machine sees a code blob only through its `fetch`, which says what instruction
    starts at a byte offset and where the next one starts. */
module Machine {
  import opened Syntax
  import opened Semantics

  datatype Instr =
    | Push(lit: Lit)
    | Pop | Dup | Swap
    | Load(name: string)
    | Store(name: string)
    | Do(op: Op)
    | Jmp(target: nat)
    | JmpIfFalse(target: nat)
    | JmpIfTrue(target: nat)
    | CallN(argc: nat)
    | Ret
    | Halt
    | Unpack(count: nat)
    | MonitorEnter(target: nat)
    | MonitorExit
    | HintBranch(taken: bool)

  datatype Fetched = Instruction(instr: Instr, next: nat) | EndOfCode | Malformed

  /** One code blob as the interpreter reads it. */
  datatype Code = Code(fetch: nat -> Fetched, size: nat)

  /** What the interpreter runs against: the operators and function table of the
      language, and the code blobs, addressed by function name. */
  datatype Image = Image(env: Env, code: string -> Code)

  /** An active `monitor` region and the operand depth to restore on a trap. */
  datatype Mon = Mon(start: nat, handler: nat, depth: nat)

  predicate Covers(m: Mon, pc: nat) {
    m.start <= pc < m.handler
  }

  datatype Frame = Frame(blob: string, pc: nat, stack: seq<Value>, sc: Scope, mons: seq<Mon>)

  /** A caller waiting for a result, with the offset of its call instruction. */
  datatype Suspended = Suspended(frame: Frame, at: nat)

  datatype Config =
    | Running(top: Frame, callers: seq<Suspended>, w: World)
    | Finished(result: Value, w: World)
    | Uncaught(exn: Exn, w: World)

  /** Drop the handlers on top that do not cover `pc`. */
  function DropStale(mons: seq<Mon>, pc: nat): (r: seq<Mon>)
    ensures |r| <= |mons| && r == mons[..|r|]
    ensures r != [] ==> Covers(r[|r| - 1], pc)
    ensures forall i | |r| <= i < |mons| :: !Covers(mons[i], pc)
  {
    if mons == [] then []
    else if Covers(mons[|mons| - 1], pc) then mons
    else DropStale(mons[..|mons| - 1], pc)
  }

  /** Resize an operand stack, padding with nulls if it is too short. */
  function Resize(stack: seq<Value>, n: nat): (r: seq<Value>)
    ensures |r| == n
  {
    if n <= |stack| then stack[..n] else stack + seq(n - |stack|, _ => NullV)
  }

  /** Deliver a fault raised by the instruction at `at`: to the innermost handler of
      this frame that covers it, else to the caller at its call instruction. */
  function Raise(x: Exn, at: nat, blob: string, stack: seq<Value>, sc: Scope, mons: seq<Mon>,
                 callers: seq<Suspended>, w: World): Config
    decreases |callers|
  {
    var live := DropStale(mons, at);
    if live != [] then
      var m := live[|live| - 1];
      Running(Frame(blob, m.handler, Resize(stack, m.depth) + [ExnV(x)], sc, live[..|live| - 1]), callers, w)
    else if callers == [] then Uncaught(x, w)
    else
      var c := callers[0];
      Raise(x, c.at, c.frame.blob, c.frame.stack, c.frame.sc, c.frame.mons, callers[1..], w)
  }

  /** Leave the top frame with result `v`. */
  function Leave(v: Value, callers: seq<Suspended>, w: World): Config {
    if callers == [] then Finished(v, w)
    else
      var f := callers[0].frame;
      Running(f.(stack := f.stack + [v]), callers[1..], w)
  }

  function RaiseTop(x: Exn, f: Frame, left: seq<Value>, callers: seq<Suspended>, w: World): Config {
    Raise(x, f.pc, f.blob, left, f.sc, f.mons, callers, w)
  }

  const Underflow := Exn(Error, "operand stack underflow")

  const BadCode := Exn(Error, "bytecode ended mid-instruction")

  const BadJump := Exn(Error, "jump target is outside the code")

  /** Advance past an instruction that leaves operand stack `stack`. */
  function Next(f: Frame, next: nat, stack: seq<Value>, callers: seq<Suspended>, w: World): Config {
    Running(f.(pc := next, stack := stack), callers, w)
  }

  function Step(im: Image, c: Config): Config {
    match c
    case Finished(_, _) => c
    case Uncaught(_, _) => c
    case Running(f, callers, w) =>
      var code := im.code(f.blob);
      match code.fetch(f.pc)
      case EndOfCode => Leave(NullV, callers, w)
      case Malformed => RaiseTop(BadCode, f, f.stack, callers, w)
      case Instruction(i, next) => Execute(im.env, code.size, i, next, f, callers, w)
  }

  function Execute(env: Env, limit: nat, i: Instr, next: nat, f: Frame, callers: seq<Suspended>, w: World): Config {
    var s := f.stack;
    var n := |f.stack|;
    match i
    case Push(l) =>
      (match LitOutcome(env, l)
       case Ok(v) => Next(f, next, s + [v], callers, w)
       case Raised(x) => RaiseTop(x, f, s, callers, w))
    case Pop =>
      if n < 1 then RaiseTop(Underflow, f, [], callers, w) else Next(f, next, s[..n - 1], callers, w)
    case Dup =>
      if n < 1 then RaiseTop(Underflow, f, [], callers, w) else Next(f, next, s + [s[n - 1]], callers, w)
    case Swap =>
      if n < 2 then RaiseTop(Underflow, f, s, callers, w)
      else Next(f, next, s[..n - 2] + [s[n - 1], s[n - 2]], callers, w)
    case Load(name) =>
      (match LoadName(name, f.sc, w)
       case Ok(v) => Next(f, next, s + [v], callers, w)
       case Raised(x) => RaiseTop(x, f, s, callers, w))
    case Store(name) =>
      if n < 1 then RaiseTop(Underflow, f, [], callers, w)
      else
        var (sc, w1) := StoreName(name, s[n - 1], f.sc, w);
        Running(Frame(f.blob, next, s[..n - 1], sc, f.mons), callers, w1)
    case Do(op) =>
      if n < Arity(op) then RaiseTop(Underflow, f, [], callers, w)
      else
        (match env.prim(op, s[n - Arity(op)..], w.heap)
         case (Ok(v), h) => Next(f, next, s[..n - Arity(op)] + [v], callers, w.(heap := h))
         case (Raised(x), h) => RaiseTop(x, f, s[..n - Arity(op)], callers, w.(heap := h)))
    case Jmp(t) =>
      if t > limit then RaiseTop(BadJump, f, s, callers, w) else Next(f, t, s, callers, w)
    case JmpIfFalse(t) =>
      if n < 1 then RaiseTop(Underflow, f, [], callers, w)
      else if t > limit then RaiseTop(BadJump, f, s[..n - 1], callers, w)
      else Next(f, if IsTruthy(s[n - 1]) then next else t, s[..n - 1], callers, w)
    case JmpIfTrue(t) =>
      if n < 1 then RaiseTop(Underflow, f, [], callers, w)
      else if t > limit then RaiseTop(BadJump, f, s[..n - 1], callers, w)
      else Next(f, if IsTruthy(s[n - 1]) then t else next, s[..n - 1], callers, w)
    case CallN(argc) =>
      if n < argc + 1 then RaiseTop(Underflow, f, [], callers, w)
      else Invoke(env, s[n - argc - 1], s[n - argc..], f.(pc := next, stack := s[..n - argc - 1]), f.pc, callers, w)
    case Ret =>
      // a fault here is seen by the caller only: the frame is already being left
      if n < 1 then Raise(Underflow, f.pc, f.blob, [], f.sc, [], callers, w)
      else Leave(s[n - 1], callers, w)
    case Halt => Leave(NullV, callers, w)
    case Unpack(count) =>
      if n < 1 then RaiseTop(Underflow, f, [], callers, w)
      else
        (match Unpacked(env, s[n - 1], count, w.heap)
         case None => RaiseTop(UnpackFault(), f, s[..n - 1], callers, w)
         case Some(items) => Next(f, next, s[..n - 1] + Reverse(items), callers, w))
    case MonitorEnter(t) =>
      if t > limit then RaiseTop(BadJump, f, s, callers, w)
      else Running(f.(pc := next, mons := f.mons + [Mon(next, t, n)]), callers, w)
    case MonitorExit =>
      Running(f.(pc := next, mons := if f.mons == [] then [] else f.mons[..|f.mons| - 1]), callers, w)
    case HintBranch(_) => Next(f, next, s, callers, w)
  }

  /** Call `callee`; `rest` is the calling frame as it resumes, `at` its call instruction.
      A function's frame starts with the arguments on its stack and every parameter
      bound to null, so that the prologue's stores stay local. */
  function Invoke(env: Env, callee: Value, args: seq<Value>, rest: Frame, at: nat,
                  callers: seq<Suspended>, w: World): Config {
    match Callable(env, callee, args, |callers|)
    case Refused(x) => Raise(x, at, rest.blob, rest.stack, rest.sc, rest.mons, callers, w)
    case Enter(fn) =>
      Running(Frame(callee.func, 0, args, LocalScope(NullLocals(fn.params)), []),
              [Suspended(rest, at)] + callers, w)
    case Outside =>
      match env.native(callee, args, w)
      case (Ok(v), w1) => Running(rest.(stack := rest.stack + [v]), callers, w1)
      case (Raised(x), w1) => Raise(x, at, rest.blob, rest.stack, rest.sc, rest.mons, callers, w1)
  }

  function NullLocals(params: seq<string>): map<string, Value> {
    map p | p in params :: NullV
  }

  function Reverse<T>(s: seq<T>): (r: seq<T>)
    ensures |r| == |s|
  {
    if s == [] then [] else Reverse(s[1..]) + [s[0]]
  }

  // ---- nesting ----

  /** No more calls are open than the limit allows. */
  predicate CallsWithin(c: Config) {
    c.Running? ==> |c.callers| <= CallDepthLimit
  }

  lemma RaiseUnwinds(x: Exn, at: nat, blob: string, stack: seq<Value>, sc: Scope, mons: seq<Mon>,
      callers: seq<Suspended>, w: World)
    ensures var c := Raise(x, at, blob, stack, sc, mons, callers, w); c.Running? ==> |c.callers| <= |callers|
    decreases |callers|
  {
    hide DropStale, Resize;
    if DropStale(mons, at) == [] && callers != [] {
      var c := callers[0];
      RaiseUnwinds(x, c.at, c.frame.blob, c.frame.stack, c.frame.sc, c.frame.mons, callers[1..], w);
    }
  }

  lemma StepWithin(im: Image, c: Config)
    requires CallsWithin(c)
    ensures CallsWithin(Step(im, c))
  {
    hide Raise, LitOutcome, LoadName, StoreName, Unpacked, NullLocals, Reverse;
    if c.Running? {
      forall x, at, blob, stack, sc, mons, w
        ensures CallsWithin(Raise(x, at, blob, stack, sc, mons, c.callers, w))
      {
        RaiseUnwinds(x, at, blob, stack, sc, mons, c.callers, w);
      }
    }
  }

  // ---- runs ----

  function Steps(im: Image, c: Config, n: nat): Config
    decreases n
  {
    if n == 0 then c else Steps(im, Step(im, c), n - 1)
  }

  ghost predicate Reaches(im: Image, c: Config, d: Config) {
    exists n: nat :: Steps(im, c, n) == d
  }

  /** However long a program runs, calls never nest deeper than the limit. */
  lemma {:induction false} CallsAlwaysWithin(im: Image, c: Config, n: nat)
    requires CallsWithin(c)
    ensures CallsWithin(Steps(im, c, n))
    decreases n
  {
    hide CallsWithin, Step;
    if n > 0 {
      StepWithin(im, c);
      CallsAlwaysWithin(im, Step(im, c), n - 1);
    }
  }

  /** The machine is still running after `k` steps. */
  predicate Alive(im: Image, c: Config, k: nat) {
    Steps(im, c, k).Running?
  }

  lemma {:induction false} StepsAdd(im: Image, c: Config, m: nat, n: nat)
    ensures Steps(im, c, m + n) == Steps(im, Steps(im, c, m), n)
    decreases m
  {
    if m > 0 {
      StepsAdd(im, Step(im, c), m - 1, n);
    }
  }

  lemma ReachesSelf(im: Image, c: Config)
    ensures Reaches(im, c, c)
  {
    assert Steps(im, c, 0) == c;
  }

  lemma ReachesStep(im: Image, c: Config)
    ensures Reaches(im, c, Step(im, c))
  {
    assert Steps(im, c, 1) == Step(im, c) by { assert Steps(im, Step(im, c), 0) == Step(im, c); }
  }

  lemma ReachesTrans(im: Image, c: Config, d: Config, e: Config)
    requires Reaches(im, c, d) && Reaches(im, d, e)
    ensures Reaches(im, c, e)
  {
    var m: nat :| Steps(im, c, m) == d;
    var n: nat :| Steps(im, d, n) == e;
    StepsAdd(im, c, m, n);
  }

  lemma {:induction false} StoppedStays(im: Image, c: Config, n: nat)
    requires !c.Running?
    ensures Steps(im, c, n) == c
    decreases n
  {
    if n > 0 {
      StoppedStays(im, c, n - 1);
    }
  }

  lemma AliveEarlier(im: Image, c: Config, k: nat, n: nat)
    requires Alive(im, c, n) && k <= n
    ensures Alive(im, c, k)
  {
    StepsAdd(im, c, k, n - k);
    if !Alive(im, c, k) {
      StoppedStays(im, Steps(im, c, k), n - k);
    }
  }

  /** Everything before a configuration with `k` steps left in it has `k` steps too. */
  lemma AliveBefore(im: Image, c: Config, d: Config, k: nat)
    requires Reaches(im, c, d) && Alive(im, d, k)
    ensures Alive(im, c, k)
  {
    var m: nat :| Steps(im, c, m) == d;
    StepsAdd(im, c, m, k);
    AliveEarlier(im, c, k, m + k);
  }

  /** One real step in front of `k` gives `k + 1`. */
  lemma AliveStep(im: Image, c: Config, k: nat)
    requires Alive(im, Step(im, c), k)
    ensures Alive(im, c, k + 1)
  {
  }

  /** A run has at most one end. */
  lemma RunsAgree(im: Image, c: Config, d: Config, e: Config)
    requires Reaches(im, c, d) && Reaches(im, c, e) && !d.Running? && !e.Running?
    ensures d == e
  {
    var m: nat :| Steps(im, c, m) == d;
    var n: nat :| Steps(im, c, n) == e;
    StepsAdd(im, c, m, n);
    StepsAdd(im, c, n, m);
    StoppedStays(im, d, n);
    StoppedStays(im, e, m);
  }
}
