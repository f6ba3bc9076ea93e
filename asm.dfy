/** The x86 code the generator emits, as a sequence of abstract instructions,
    and its rendering to the exact assembly text of the source's templates. */
module Asm {
  import opened Text

  datatype Reg = Eax | Ecx | Edx | Ebp | Esp | Al | Cl

  /** An operand: a register, an immediate `$n`, or a frame slot `n(%ebp)`. */
  datatype Loc = R(reg: Reg) | Imm(n: int) | Slot(offset: int)

  /** The control-flow label families `_e`, `_end`, `_cond`, `_cont`, `_start`. */
  datatype LabelKind = Else | End | Cond | Cont | Start

  /** A control-flow label: its family and the id of the construct that owns it. */
  datatype CtlLabel = CtlLabel(kind: LabelKind, id: nat)

  /** How a line is laid out: the usual four-space indent with the mnemonic
      padded to eight columns, the for-loop back edge written with four
      spaces after `jmp`, or no indent at all. */
  datatype Layout = Indented | Narrow | Flush

  datatype Instr =
    | Globl(name: string)                            // .globl _name
    | FunLabel(name: string)                         // _name:
    | Label(lbl: CtlLabel)                         // _end3:
    | Push(src: Reg)                                 // pushl %r
    | Pop(dst: Reg)                                  // pop %r
    | AddEsp(bytes: int)                             // addl $n, %esp
    | SubEsp(bytes: int)                             // subl $n, %esp
    | SetFrame                                       // movl %esp, %ebp
    | RestoreEsp                                     // movl %ebp, %esp
    | Jmp(target: CtlLabel, layout: Layout)
    | Je(target: CtlLabel)
    | Call(callee: string)
    | Ret
    | Op(mnemonic: string, args: seq<Loc>, layout: Layout)   // any other instruction

  function Movl(src: Loc, dst: Loc): Instr {
    Op("movl", [src, dst], Indented)
  }

  /** `cmpl $0, %eax`, the test that opens every conditional jump. */
  const CmpZero: Instr := Op("cmpl", [Imm(0), R(Eax)], Indented)

  function RegName(r: Reg): string {
    match r
    case Eax => "%eax"
    case Ecx => "%ecx"
    case Edx => "%edx"
    case Ebp => "%ebp"
    case Esp => "%esp"
    case Al => "%al"
    case Cl => "%cl"
  }

  function LocText(l: Loc): string {
    match l
    case R(r) => RegName(r)
    case Imm(n) => "$" + IntToString(n)
    case Slot(o) => IntToString(o) + "(%ebp)"
  }

  function KindName(k: LabelKind): string {
    match k
    case Else => "e"
    case End => "end"
    case Cond => "cond"
    case Cont => "cont"
    case Start => "start"
  }

  function LabelText(l: CtlLabel): string {
    "_" + KindName(l.kind) + NatToString(l.id)
  }

  function ArgsText(args: seq<Loc>): string
    decreases |args|
  {
    if args == [] then ""
    else if |args| == 1 then LocText(args[0])
    else LocText(args[0]) + ", " + ArgsText(args[1..])
  }

  /** A mnemonic padded to eight columns, as in `"    movl    "`. */
  function Padded(m: string): string {
    if |m| < 8 then m + Spaces(8 - |m|) else m + " "
  }

  function Line(m: string, operands: string, layout: Layout): string {
    match layout
    case Indented => "    " + Padded(m) + operands + "\n"
    case Narrow => "    " + m + "    " + operands + "\n"
    case Flush => Padded(m) + operands + "\n"
  }

  /** The text of one instruction: each template piece is a whole line. */
  function Render(i: Instr): (r: string)
    ensures |r| > 0 && r[|r| - 1] == '\n'
  {
    match i
    case Globl(name) => ".globl _" + name + "\n"
    case FunLabel(name) => "_" + name + ":\n"
    case Label(l) => LabelText(l) + ":\n"
    case Push(r) => Line("pushl", RegName(r), Indented)
    case Pop(r) => Line("pop", RegName(r), Indented)
    case AddEsp(n) => Line("addl", "$" + IntToString(n) + ", %esp", Indented)
    case SubEsp(n) => Line("subl", "$" + IntToString(n) + ", %esp", Indented)
    case SetFrame => Line("movl", "%esp, %ebp", Indented)
    case RestoreEsp => Line("movl", "%ebp, %esp", Indented)
    case Jmp(l, layout) => Line("jmp", LabelText(l), layout)
    case Je(l) => Line("je", LabelText(l), Indented)
    case Call(name) => Line("call", "_" + name, Indented)
    case Ret => "    ret\n"
    case Op(m, args, layout) => Line(m, ArgsText(args), layout)
  }

  /** The assembly text of a whole code sequence. */
  function RenderAll(code: seq<Instr>): string
    decreases |code|
  {
    if code == [] then "" else Render(code[0]) + RenderAll(code[1..])
  }

  /** Text appended piece by piece is the text of the appended code, so
      `out += ...` in the generator renders the concatenated code. */
  lemma {:induction false} RenderAppend(a: seq<Instr>, b: seq<Instr>)
    ensures RenderAll(a + b) == RenderAll(a) + RenderAll(b)
    decreases |a|
  {
    if a != [] {
      assert (a + b)[0] == a[0] && (a + b)[1..] == a[1..] + b;
      RenderAppend(a[1..], b);
      Assoc(Render(a[0]), RenderAll(a[1..]), RenderAll(b));
    } else {
      assert a + b == b;
    }
  }
}
