/** The seccomp process filter (geniusnew/isolation.py): a generator of classic BPF code, the
    machine that runs it, and the decision table it has to implement. */
module Seccomp {
  type Byte = b: int | 0 <= b < 0x100 witness 0
  type Half = h: int | 0 <= h < 0x1_0000 witness 0
  type Word = w: int | 0 <= w < 0x1_0000_0000 witness 0

  const X32_SYSCALL_BIT: Word := 0x40000000
  const CLONE_THREAD: Word := 0x00010000
  const RET_KILL_PROCESS: Word := 0x80000000
  const RET_ALLOW: Word := 0x7FFF0000
  const RET_ERRNO: Word := 0x00050000
  // The error number occupies the low half of the action word, so `|` is `+`.
  const ENOSYS_ACTION: Word := RET_ERRNO + 38
  const THREAD_NAME_ACTION: Word := RET_ERRNO + 1
  const PR_SET_NAME: Word := 15

  const LD_W_ABS: Half := 0x20
  const JEQ_K: Half := 0x15
  const JGE_K: Half := 0x35
  const JSET_K: Half := 0x45
  const RET_K: Half := 0x06

  /** One classic BPF instruction: jumps are relative to the next instruction. */
  datatype Instruction = Instruction(code: Half, jt: Byte, jf: Byte, k: Word)

  datatype Spec = Spec(arch: Word, kill: seq<Word>, clone: Word, clone3: Word, prctl: Word)

  /** The words of `seccomp_data` the filter reads; `arg0` is the low word of the first argument. */
  datatype Call = Call(nr: Word, arch: Word, arg0: Word)

  const X86_64 := Spec(0xC000003E,
                       [57, 58, 59, 105, 106, 113, 114, 116, 117, 119, 122, 123, 126, 157, 322],
                       56, 435, 157)

  /** `a & b` is not zero. */
  predicate SharesBit(a: nat, b: nat) {
    if a == 0 || b == 0 then false
    else (a % 2 == 1 && b % 2 == 1) || SharesBit(a / 2, b / 2)
  }

  // ---------------------------------------------------------------- the machine

  datatype Outcome = Returned(action: Word) | Faulted

  function Load(call: Call, offset: Word): (word: Outcome) {
    if offset == 0 then Returned(call.nr)
    else if offset == 4 then Returned(call.arch)
    else if offset == 16 then Returned(call.arg0)
    else Faulted
  }

  /** The jumps: equal (0x15), at least (0x35), or sharing a bit. */
  function Taken(i: Instruction, a: Word): bool {
    if i.code == 0x15 then a == i.k
    else if i.code == 0x35 then a >= i.k
    else SharesBit(a, i.k)
  }

  /** Return (0x06), load a word (0x20), jump. Classic BPF only jumps forward, so the distance to the end
      of the program decreases.
      Running off the end, an unknown instruction or an unreadable word is a fault. */
  function Run(program: seq<Instruction>, call: Call, pc: nat, a: Word): Outcome
    decreases |program| - pc
  {
    if pc >= |program| then Faulted
    else
      var i := program[pc];
      if i.code == 0x06 then Returned(i.k)
      else if i.code == 0x20 then
        match Load(call, i.k)
        case Faulted => Faulted
        case Returned(word) => Run(program, call, pc + 1, word)
      else if i.code == 0x15 || i.code == 0x35 || i.code == 0x45 then
        Run(program, call, pc + 1 + (if Taken(i, a) then i.jt else i.jf), a)
      else Faulted
  }

  // ---------------------------------------------------------------- the table

  /** What the filter is for, read top to bottom. */
  function Decision(spec: Spec, call: Call): Word {
    if call.arch != spec.arch then RET_KILL_PROCESS
    else if call.nr >= X32_SYSCALL_BIT then RET_KILL_PROCESS
    else if call.nr == spec.prctl && call.arg0 == PR_SET_NAME then THREAD_NAME_ACTION
    else if call.nr in spec.kill then RET_KILL_PROCESS
    else if call.nr == spec.clone3 then ENOSYS_ACTION
    else if call.nr == spec.clone && !SharesBit(call.arg0, CLONE_THREAD) then RET_KILL_PROCESS
    else RET_ALLOW
  }

  // ---------------------------------------------------------------- the generator

  const KILL := Instruction(RET_K, 0, 0, RET_KILL_PROCESS)

  function Prologue(spec: Spec): seq<Instruction> {
    [ Instruction(LD_W_ABS, 0, 0, 4),
      Instruction(JEQ_K, 1, 0, spec.arch),
      KILL,
      Instruction(LD_W_ABS, 0, 0, 0),
      Instruction(JGE_K, 0, 1, X32_SYSCALL_BIT),
      KILL,
      Instruction(JEQ_K, 0, 3, spec.prctl),
      Instruction(LD_W_ABS, 0, 0, 16),
      Instruction(JEQ_K, 0, 1, PR_SET_NAME),
      Instruction(RET_K, 0, 0, THREAD_NAME_ACTION),
      Instruction(LD_W_ABS, 0, 0, 0) ]
  }

  function Epilogue(spec: Spec): seq<Instruction> {
    [ Instruction(JEQ_K, 0, 1, spec.clone3),
      Instruction(RET_K, 0, 0, ENOSYS_ACTION),
      Instruction(JEQ_K, 0, 3, spec.clone),
      Instruction(LD_W_ABS, 0, 0, 16),
      Instruction(JSET_K, 1, 0, CLONE_THREAD),
      KILL,
      Instruction(RET_K, 0, 0, RET_ALLOW) ]
  }

  ghost predicate Emitted(spec: Spec, program: seq<Instruction>) {
    var end := 11 + 2 * |spec.kill|;
    && |program| == end + 7
    && program[..11] == Prologue(spec)
    && (forall i :: 0 <= i < |spec.kill| ==>
          program[11 + 2 * i] == Instruction(JEQ_K, 0, 1, spec.kill[i]) && program[11 + 2 * i + 1] == KILL)
    && program[end..] == Epilogue(spec)
  }

  lemma FilterDecides(spec: Spec, program: seq<Instruction>, call: Call)
    requires Emitted(spec, program)
    ensures Run(program, call, 0, 0) == Returned(Decision(spec, call))
  {
    PrologueDecides(spec, program, call);
    KillListDecides(spec, program, call, 0);
    assert spec.kill[0..] == spec.kill;
    EpilogueDecides(spec, program, call);
  }

  // One instruction each; the proofs below chain them.

  lemma Loads(program: seq<Instruction>, call: Call, pc: nat, a: Word, offset: Word)
    requires pc < |program| && program[pc] == Instruction(LD_W_ABS, 0, 0, offset)
    requires Load(call, offset).Returned?
    ensures Run(program, call, pc, a) == Run(program, call, pc + 1, Load(call, offset).action)
  {
  }

  lemma Jumps(program: seq<Instruction>, call: Call, pc: nat, a: Word, i: Instruction)
    requires pc < |program| && program[pc] == i && i.code in {JEQ_K, JGE_K, JSET_K}
    ensures Run(program, call, pc, a) == Run(program, call, pc + 1 + (if Taken(i, a) then i.jt else i.jf), a)
  {
  }

  lemma PrologueDecides(spec: Spec, program: seq<Instruction>, call: Call)
    requires Emitted(spec, program)
    ensures Run(program, call, 0, 0) ==
            if call.arch != spec.arch || call.nr >= X32_SYSCALL_BIT then Returned(RET_KILL_PROCESS)
            else if call.nr == spec.prctl && call.arg0 == PR_SET_NAME then Returned(THREAD_NAME_ACTION)
            else Run(program, call, 11, call.nr)
  {
    assert forall i :: 0 <= i < 11 ==> program[i] == program[..11][i];
    Loads(program, call, 0, 0, 4);
    Jumps(program, call, 1, call.arch, program[1]);
    if call.arch == spec.arch {
      Loads(program, call, 3, call.arch, 0);
      Jumps(program, call, 4, call.nr, program[4]);
      if call.nr < X32_SYSCALL_BIT {
        ThreadNameDecides(spec, program, call);
      }
    }
  }

  lemma ThreadNameDecides(spec: Spec, program: seq<Instruction>, call: Call)
    requires Emitted(spec, program)
    ensures Run(program, call, 6, call.nr) ==
            if call.nr == spec.prctl && call.arg0 == PR_SET_NAME then Returned(THREAD_NAME_ACTION)
            else Run(program, call, 11, call.nr)
  {
    assert forall i :: 0 <= i < 11 ==> program[i] == program[..11][i];
    Jumps(program, call, 6, call.nr, program[6]);
    if call.nr == spec.prctl {
      Loads(program, call, 7, call.nr, 16);
      Jumps(program, call, 8, call.arg0, program[8]);
      if call.arg0 != PR_SET_NAME {
        Loads(program, call, 10, call.arg0, 0);
      }
    } else {
      Loads(program, call, 10, call.nr, 0);
    }
  }

  lemma {:induction false} KillListDecides(spec: Spec, program: seq<Instruction>, call: Call, n: nat)
    requires Emitted(spec, program) && n <= |spec.kill|
    ensures Run(program, call, 11 + 2 * n, call.nr) ==
            if call.nr in spec.kill[n..] then Returned(RET_KILL_PROCESS)
            else Run(program, call, 11 + 2 * |spec.kill|, call.nr)
    decreases |spec.kill| - n
  {
    if n < |spec.kill| {
      assert spec.kill[n..] == [spec.kill[n]] + spec.kill[n + 1..];
      KillEntry(spec, program, call, n);
      if call.nr != spec.kill[n] {
        KillListDecides(spec, program, call, n + 1);
      }
    }
  }

  lemma KillEntry(spec: Spec, program: seq<Instruction>, call: Call, n: nat)
    requires Emitted(spec, program) && n < |spec.kill|
    ensures Run(program, call, 11 + 2 * n, call.nr) ==
            if call.nr == spec.kill[n] then Returned(RET_KILL_PROCESS)
            else Run(program, call, 11 + 2 * (n + 1), call.nr)
  {
    var pc := 11 + 2 * n;
    assert program[pc] == Instruction(JEQ_K, 0, 1, spec.kill[n]) && program[pc + 1] == KILL;
    Jumps(program, call, pc, call.nr, program[pc]);
  }

  lemma EpilogueDecides(spec: Spec, program: seq<Instruction>, call: Call)
    requires Emitted(spec, program)
    ensures Run(program, call, 11 + 2 * |spec.kill|, call.nr) ==
            Returned(if call.nr == spec.clone3 then ENOSYS_ACTION
                     else if call.nr == spec.clone && !SharesBit(call.arg0, CLONE_THREAD) then RET_KILL_PROCESS
                     else RET_ALLOW)
  {
    var end := 11 + 2 * |spec.kill|;
    var tail := Epilogue(spec);
    assert program[end..] == tail;
    assert program[end] == tail[0] && program[end + 1] == tail[1] && program[end + 2] == tail[2];
    assert program[end + 3] == tail[3] && program[end + 4] == tail[4];
    assert program[end + 5] == tail[5] && program[end + 6] == tail[6];
    Jumps(program, call, end, call.nr, tail[0]);
    if call.nr != spec.clone3 {
      Jumps(program, call, end + 2, call.nr, tail[2]);
      if call.nr == spec.clone {
        Loads(program, call, end + 3, call.nr, 16);
        Jumps(program, call, end + 4, call.arg0, tail[4]);
      }
    }
  }

  // ---------------------------------------------------------------- the bytes handed to the kernel

  /** `struct sock_filter` in native order on x86_64: two bytes, one, one and four, low byte first. */
  function Encode(i: Instruction): (bytes: seq<Byte>)
    ensures |bytes| == 8
  {
    [ i.code % 0x100, i.code / 0x100, i.jt, i.jf,
      i.k % 0x100, i.k / 0x100 % 0x100, i.k / 0x1_0000 % 0x100, i.k / 0x100_0000 ]
  }

  function Shifted(b: Byte, weight: int): int { b * weight }

  function Decode(b: seq<Byte>): Instruction
    requires |b| == 8
  {
    Instruction(b[0] + Shifted(b[1], 0x100), b[2], b[3],
                b[4] + Shifted(b[5], 0x100) + Shifted(b[6], 0x1_0000) + Shifted(b[7], 0x100_0000))
  }

  lemma WordRoundTrip(k: Word)
    ensures k % 0x100 + Shifted(k / 0x100 % 0x100, 0x100) + Shifted(k / 0x1_0000 % 0x100, 0x1_0000)
            + Shifted(k / 0x100_0000, 0x100_0000) == k
  {
    assert k / 0x1_0000 == k / 0x100 / 0x100 && k / 0x100_0000 == k / 0x1_0000 / 0x100;
  }

  lemma InstructionRoundTrip(i: Instruction)
    ensures Decode(Encode(i)) == i
  {
    WordRoundTrip(i.k);
    assert i.code % 0x100 + Shifted(i.code / 0x100, 0x100) == i.code;
  }

  function EncodeProgram(program: seq<Instruction>): (bytes: seq<Byte>)
    ensures |bytes| == 8 * |program|
  {
    if program == [] then [] else Encode(program[0]) + EncodeProgram(program[1..])
  }

  function DecodeProgram(bytes: seq<Byte>): seq<Instruction>
    requires |bytes| % 8 == 0
  {
    if bytes == [] then [] else [Decode(bytes[..8])] + DecodeProgram(bytes[8..])
  }

  lemma {:induction false} ProgramRoundTrip(program: seq<Instruction>)
    ensures DecodeProgram(EncodeProgram(program)) == program
  {
    if program != [] {
      var bytes := EncodeProgram(program);
      assert bytes[..8] == Encode(program[0]) && bytes[8..] == EncodeProgram(program[1..]);
      InstructionRoundTrip(program[0]);
      ProgramRoundTrip(program[1..]);
    }
  }

  lemma {:induction false} EndsEncoded(program: seq<Instruction>)
    requires program != []
    ensures var bytes := EncodeProgram(program);
            bytes[..8] == Encode(program[0]) && bytes[|bytes| - 8..] == Encode(program[|program| - 1])
  {
    hide Encode;
    var rest := program[1..];
    if rest != [] {
      EndsEncoded(rest);
      assert EncodeProgram(program)[8..] == EncodeProgram(rest);
    }
  }

  lemma {:induction false} EncodedAt(program: seq<Instruction>, n: nat)
    requires n < |program|
    ensures EncodeProgram(program)[8 * n..8 * n + 8] == Encode(program[n])
  {
    hide Encode;
    if n > 0 {
      EncodedAt(program[1..], n - 1);
      assert EncodeProgram(program)[8..] == EncodeProgram(program[1..]);
      assert EncodeProgram(program)[8 * n..8 * n + 8] == EncodeProgram(program)[8..][8 * (n - 1)..8 * (n - 1) + 8];
    }
  }

  /** The tests on the architecture, the x32 bit, the thread name and the clone flags, as bytes. */
  lemma EmittedTests(spec: Spec, program: seq<Instruction>)
    requires Emitted(spec, program)
    ensures var bytes, clone := EncodeProgram(program), 8 * (14 + 2 * |spec.kill|);
            && bytes[8..12] == [0x15, 0, 1, 0] && bytes[24..32] == [0x20, 0, 0, 0, 0, 0, 0, 0]
            && bytes[32..40] == [0x35, 0, 0, 1, 0, 0, 0, 0x40] && bytes[56..64] == [0x20, 0, 0, 0, 16, 0, 0, 0]
            && bytes[64..72] == [0x15, 0, 0, 1, 15, 0, 0, 0] && bytes[72..80] == [0x06, 0, 0, 0, 1, 0, 5, 0]
            && bytes[clone..clone + 8] == [0x20, 0, 0, 0, 16, 0, 0, 0]
            && bytes[clone + 8..clone + 16] == [0x45, 0, 1, 0, 0, 0, 1, 0]
  {
    hide EncodeProgram, Encode;
    var head, tail := program[..11], program[11 + 2 * |spec.kill|..];
    assert program[1] == head[1] && program[3] == head[3] && program[4] == head[4] && program[7] == head[7];
    assert program[8] == head[8] && program[9] == head[9];
    assert program[14 + 2 * |spec.kill|] == tail[3] && program[15 + 2 * |spec.kill|] == tail[4];
    FixedRows();
    RowStarts(spec.arch);
    EncodedAt(program, 1);
    EncodedAt(program, 3);
    EncodedAt(program, 4);
    EncodedAt(program, 7);
    EncodedAt(program, 8);
    EncodedAt(program, 9);
    EncodedAt(program, 14 + 2 * |spec.kill|);
    EncodedAt(program, 15 + 2 * |spec.kill|);
    assert EncodeProgram(program)[8..12] == EncodeProgram(program)[8..16][..4];
  }

  lemma FixedRows()
    ensures Encode(Instruction(LD_W_ABS, 0, 0, 0)) == [0x20, 0, 0, 0, 0, 0, 0, 0]
    ensures Encode(Instruction(LD_W_ABS, 0, 0, 16)) == [0x20, 0, 0, 0, 16, 0, 0, 0]
    ensures Encode(Instruction(JGE_K, 0, 1, X32_SYSCALL_BIT)) == [0x35, 0, 0, 1, 0, 0, 0, 0x40]
    ensures Encode(Instruction(JEQ_K, 0, 1, PR_SET_NAME)) == [0x15, 0, 0, 1, 15, 0, 0, 0]
    ensures Encode(Instruction(RET_K, 0, 0, THREAD_NAME_ACTION)) == [0x06, 0, 0, 0, 1, 0, 5, 0]
    ensures Encode(Instruction(JSET_K, 1, 0, CLONE_THREAD)) == [0x45, 0, 1, 0, 0, 0, 1, 0]
  {
  }

  lemma RowStarts(k: Word)
    ensures Encode(Instruction(JEQ_K, 1, 0, k))[..4] == [0x15, 0, 1, 0]
  {
  }

  lemma EmittedEnds(spec: Spec, program: seq<Instruction>)
    requires Emitted(spec, program)
    ensures var bytes := EncodeProgram(program);
            bytes[..8] == [0x20, 0, 0, 0, 4, 0, 0, 0] && bytes[|bytes| - 8..] == [0x06, 0, 0, 0, 0, 0, 0xFF, 0x7F]
  {
    hide EncodeProgram;
    EndsEncoded(program);
    assert program[0] == program[..11][0];
    assert program[|program| - 1] == program[11 + 2 * |spec.kill|..][6];
  }

  /** The generator grows the program entry by entry; the bytes it returns decode to a program that
      decides every call exactly as the table does. */
  method ProcessFilter(spec: Spec) returns (bytes: seq<Byte>)
    ensures |bytes| == 8 * (18 + 2 * |spec.kill|)
    ensures forall call :: Run(DecodeProgram(bytes), call, 0, 0) == Returned(Decision(spec, call))
    ensures bytes[..8] == [0x20, 0, 0, 0, 4, 0, 0, 0] && bytes[|bytes| - 8..] == [0x06, 0, 0, 0, 0, 0, 0xFF, 0x7F]
    ensures bytes[8..12] == [0x15, 0, 1, 0] && bytes[24..32] == [0x20, 0, 0, 0, 0, 0, 0, 0]
    ensures bytes[32..40] == [0x35, 0, 0, 1, 0, 0, 0, 0x40] && bytes[56..64] == [0x20, 0, 0, 0, 16, 0, 0, 0]
    ensures bytes[64..72] == [0x15, 0, 0, 1, 15, 0, 0, 0] && bytes[72..80] == [0x06, 0, 0, 0, 1, 0, 5, 0]
    ensures var clone := 8 * (14 + 2 * |spec.kill|);
            bytes[clone..clone + 16] == [0x20, 0, 0, 0, 16, 0, 0, 0, 0x45, 0, 1, 0, 0, 0, 1, 0]
  {
    hide EncodeProgram, DecodeProgram, Run, Decision;
    var program := Prologue(spec);
    for n := 0 to |spec.kill|
      invariant |program| == 11 + 2 * n
      invariant program[..11] == Prologue(spec)
      invariant forall i :: 0 <= i < n ==>
                  program[11 + 2 * i] == Instruction(JEQ_K, 0, 1, spec.kill[i]) && program[11 + 2 * i + 1] == KILL
    {
      program := program + [Instruction(JEQ_K, 0, 1, spec.kill[n]), KILL];
    }
    program := program + Epilogue(spec);
    bytes := EncodeProgram(program);
    ProgramRoundTrip(program);
    EmittedEnds(spec, program);
    EmittedTests(spec, program);
    forall call
      ensures Run(program, call, 0, 0) == Returned(Decision(spec, call))
    {
      FilterDecides(spec, program, call);
    }
  }

  // ---------------------------------------------------------------- the one architecture it is built for

  lemma OnTheX86List(nr: Word)
    ensures nr in X86_64.kill <==> nr in {57, 58, 59, 105, 106, 113, 114, 116, 117, 119, 122, 123, 126, 157, 322}
  {
  }

  lemma FourBitsOn(a: nat, b: nat)
    requires b in {16, 0x100, 0x1000, 0x1_0000}
    ensures SharesBit(a, b) <==> SharesBit(a / 16, b / 16)
  {
    assert SharesBit(a, b) == SharesBit(a / 2, b / 2);
    assert SharesBit(a / 2, b / 2) == SharesBit(a / 4, b / 4);
    assert SharesBit(a / 4, b / 4) == SharesBit(a / 8, b / 8);
    assert SharesBit(a / 8, b / 8) == SharesBit(a / 16, b / 16);
  }

  lemma MakesThread(arg0: Word)
    ensures SharesBit(arg0, CLONE_THREAD) <==> arg0 / 0x1_0000 % 2 == 1
  {
    FourBitsOn(arg0, 0x1_0000);
    FourBitsOn(arg0 / 16, 0x1000);
    FourBitsOn(arg0 / 16 / 16, 0x100);
    FourBitsOn(arg0 / 16 / 16 / 16, 16);
    var high := arg0 / 0x1_0000;
    assert high == arg0 / 16 / 16 / 16 / 16;
    assert SharesBit(high, 1) <==> high % 2 == 1;
  }

  lemma TableOnX86(call: Call)
    ensures var native := call.arch == 0xC000003E && call.nr < 0x4000_0000;
            var listed := call.nr in {57, 58, 59, 105, 106, 113, 114, 116, 117, 119, 122, 123, 126, 157, 322};
            Decision(X86_64, call) ==
              if native && call.nr == 157 && call.arg0 == 15 then 0x0005_0001
              else if native && call.nr == 435 then 0x0005_0026
              else if native && !listed && (call.nr == 56 ==> call.arg0 / 0x1_0000 % 2 == 1) then 0x7FFF_0000
              else 0x8000_0000
  {
    hide SharesBit;
    OnTheX86List(call.nr);
    OnTheX86List(435);
    OnTheX86List(157);
    MakesThread(call.arg0);
  }

  /** The filter for x86_64, call by call: a native prctl(PR_SET_NAME) gets EPERM, a native clone3 gets ENOSYS,
      what is native, starts no process or program, changes no identity, is no prctl, and if it is
      clone makes a thread, is let through, and everything else kills. */
  method X86Filter() returns (bytes: seq<Byte>)
    ensures |bytes| == 8 * (18 + 2 * 15)
    ensures forall call :: Run(DecodeProgram(bytes), call, 0, 0) ==
              var native := call.arch == 0xC000003E && call.nr < 0x4000_0000;
              var listed := call.nr in {57, 58, 59, 105, 106, 113, 114, 116, 117, 119, 122, 123, 126, 157, 322};
              Returned(if native && call.nr == 157 && call.arg0 == 15 then 0x0005_0001
                       else if native && call.nr == 435 then 0x0005_0026
                       else if native && !listed && (call.nr == 56 ==> call.arg0 / 0x1_0000 % 2 == 1) then 0x7FFF_0000
                       else 0x8000_0000)
  {
    hide Decision, Run, DecodeProgram;
    bytes := ProcessFilter(X86_64);
    forall call {
      TableOnX86(call);
    }
  }
}
