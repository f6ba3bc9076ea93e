/** A checker for the stack discipline and the control-flow labels of emitted
    code.  It walks the instructions in order, keeping the number of bytes the
    stack pointer lies below the frame pointer (`Live`), or `Dead` after an
    unconditional jump or a return until a label that some earlier jump
    targets is reached.  Every label may be defined once; every jump taken
    from live code must reach its label with the stack depth the label has
    everywhere else; a return must leave exactly the return address on the
    stack; no generic instruction may write `%esp` or `%ebp`. */
module StackCheck {
  import opened Wrappers
  import opened Asm

  datatype Depth = Dead | Live(bytes: int)

  /** The depth after moving the stack pointer down by `n` bytes. */
  function Lower(d: Depth, n: int): Depth {
    if d.Live? then Live(d.bytes + n) else Dead
  }

  /** The checker state: the current depth, the depth required at each label
      some live jump targets, the labels defined so far and the labels any
      jump names. */
  datatype Walker = Walker(depth: Depth, at: map<CtlLabel, int>, defined: set<CtlLabel>, used: set<CtlLabel>)

  const Initial: Walker := Walker(Dead, map[], {}, {})

  predicate WritesFrame(args: seq<Loc>) {
    |args| > 0 && (args[|args| - 1] == R(Esp) || args[|args| - 1] == R(Ebp))
  }

  /** A jump to `l`: from live code it fixes (or checks) the depth at `l`;
      a backward jump to a label defined in dead code is refused. */
  function Jump(w: Walker, l: CtlLabel): Option<Walker> {
    var w1 := w.(used := w.used + {l});
    if w.depth.Dead? then Some(w1)
    else if l in w.at then (if w.at[l] == w.depth.bytes then Some(w1) else None)
    else if l in w.defined then None
    else Some(w1.(at := w.at[l := w.depth.bytes]))
  }

  function Step(w: Walker, i: Instr): Option<Walker> {
    match i
    case Globl(_) => Some(w)
    case FunLabel(_) => if w.depth.Dead? then Some(w.(depth := Live(-4))) else None
    case Label(l) =>
      if l in w.defined then None
      else if w.depth.Live? then
        if l in w.at && w.at[l] != w.depth.bytes then None
        else Some(w.(at := w.at[l := w.depth.bytes], defined := w.defined + {l}))
      else if l in w.at then Some(w.(depth := Live(w.at[l]), defined := w.defined + {l}))
      else Some(w.(defined := w.defined + {l}))
    case Push(_) => Some(w.(depth := Lower(w.depth, 4)))
    case Pop(_) => Some(w.(depth := Lower(w.depth, -4)))
    case AddEsp(n) => Some(w.(depth := Lower(w.depth, -n)))
    case SubEsp(n) => Some(w.(depth := Lower(w.depth, n)))
    case SetFrame => if w.depth == Live(0) || w.depth.Dead? then Some(w) else None
    case RestoreEsp => Some(w.(depth := if w.depth.Live? then Live(0) else Dead))
    case Jmp(l, _) =>
      var r := Jump(w, l);
      if r.None? then None else Some(r.value.(depth := Dead))
    case Je(l) => Jump(w, l)
    case Call(_) => Some(w)
    case Ret => if w.depth == Live(-4) || w.depth.Dead? then Some(w.(depth := Dead)) else None
    case Op(_, args, _) => if WritesFrame(args) then None else Some(w)
  }

  function Walk(w: Walker, code: seq<Instr>): Option<Walker>
    decreases |code|
  {
    if code == [] then Some(w)
    else
      var r := Step(w, code[0]);
      if r.None? then None else Walk(r.value, code[1..])
  }

  /** The control-flow labels `code` defines, in order. */
  function Defines(code: seq<Instr>): seq<CtlLabel>
    decreases |code|
  {
    if code == [] then []
    else (if code[0].Label? then [code[0].lbl] else []) + Defines(code[1..])
  }

  predicate Distinct(ls: seq<CtlLabel>) {
    forall i, j :: 0 <= i < j < |ls| ==> ls[i] != ls[j]
  }

  /** A walk over two pieces of code is the walk over the first followed by
      the walk over the second. */
  lemma {:induction false} WalkAppend(w: Walker, a: seq<Instr>, b: seq<Instr>)
    ensures Walk(w, a + b) == (if Walk(w, a).None? then None else Walk(Walk(w, a).value, b))
    decreases |a|
  {
    if a != [] {
      assert (a + b)[0] == a[0];
      assert (a + b)[1..] == a[1..] + b;
      var r := Step(w, a[0]);
      if r.Some? {
        WalkAppend(r.value, a[1..], b);
      }
    } else {
      assert a + b == b;
    }
  }

  /** Chaining two successful walks. */
  lemma Chain(w: Walker, a: seq<Instr>, w1: Walker, b: seq<Instr>, w2: Walker)
    requires Walk(w, a) == Some(w1) && Walk(w1, b) == Some(w2)
    ensures Walk(w, a + b) == Some(w2)
  {
    WalkAppend(w, a, b);
  }

  lemma {:induction false} WalkOne(w: Walker, i: Instr)
    ensures Walk(w, [i]) == Step(w, i)
  {
    assert [i][1..] == [];
  }

  /** One step adds to `defined` exactly the label the instruction defines,
      which must not have been defined before. */
  lemma StepDefines(w: Walker, i: Instr)
    requires Step(w, i).Some?
    ensures i.Label? ==> i.lbl !in w.defined && Step(w, i).value.defined == w.defined + {i.lbl}
    ensures !i.Label? ==> Step(w, i).value.defined == w.defined
  {
  }

  /** A successful walk defines each label at most once, none of them
      already defined, and adds exactly those labels to `defined`. */
  lemma {:induction false} WalkDefinesOnce(w: Walker, code: seq<Instr>)
    requires Walk(w, code).Some?
    ensures Distinct(Defines(code))
    ensures forall l :: l in Defines(code) ==> l !in w.defined
    ensures Walk(w, code).value.defined == w.defined + set l | l in Defines(code)
    decreases |code|
  {
    if code != [] {
      var w1 := Step(w, code[0]).value;
      StepDefines(w, code[0]);
      WalkDefinesOnce(w1, code[1..]);
      var rest := Defines(code[1..]);
      if code[0].Label? {
        var l := code[0].lbl;
        assert Defines(code) == [l] + rest;
        forall i, j | 0 <= i < j < |Defines(code)|
          ensures Defines(code)[i] != Defines(code)[j]
        {
          if i == 0 {
            assert Defines(code)[j] == rest[j - 1];
          } else {
            assert Defines(code)[i] == rest[i - 1] && Defines(code)[j] == rest[j - 1];
          }
        }
      } else {
        assert Defines(code) == rest;
      }
    }
  }

  /** An instruction that touches neither the stack pointer nor a label. */
  predicate Plain(i: Instr) {
    (i.Op? && !WritesFrame(i.args)) || i.Call? || i.Globl?
  }

  /** Plain code leaves the checker state unchanged. */
  lemma {:induction false} WalkPlain(w: Walker, code: seq<Instr>)
    requires forall k :: 0 <= k < |code| ==> Plain(code[k])
    ensures Walk(w, code) == Some(w)
    decreases |code|
  {
    if code != [] {
      WalkPlain(w, code[1..]);
    }
  }

  /** No label numbered in `[lo, hi)` has been defined, targeted or named. */
  ghost predicate FreshIn(w: Walker, lo: nat, hi: nat) {
    forall l: CtlLabel :: lo <= l.id < hi ==> l !in w.defined && l !in w.at && l !in w.used
  }

  /** From `w` to `w1` the checker only learned about labels numbered in
      `[lo, hi)` and the labels in `extra` (those of an enclosing loop):
      nothing earlier was forgotten or changed. */
  ghost predicate Learns(w: Walker, w1: Walker, lo: nat, hi: nat, extra: set<CtlLabel>) {
    && lo <= hi
    && w.defined <= w1.defined
    && (forall l :: l in w1.defined && l !in w.defined ==> lo <= l.id < hi)
    && (forall l :: l in w.at ==> l in w1.at && w1.at[l] == w.at[l])
    && (forall l :: l in w1.at && l !in w.at ==> lo <= l.id < hi || l in extra)
    && w.used <= w1.used
    && (forall l :: l in w1.used && l !in w.used ==> lo <= l.id < hi || l in extra)
  }

  /** Every label numbered in `[lo, hi)` that some jump names is defined. */
  ghost predicate Complete(w: Walker, lo: nat, hi: nat) {
    forall l :: l in w.used && lo <= l.id < hi ==> l in w.defined
  }

  /** What a self-contained piece of code numbered `[lo, hi)` does to the
      checker: it learns only about its own labels and those in `extra`,
      and defines every one of its own labels that it names. */
  ghost predicate Grows(w: Walker, w1: Walker, lo: nat, hi: nat, extra: set<CtlLabel>) {
    Learns(w, w1, lo, hi, extra) && Complete(w1, lo, hi)
  }

  lemma LearnsTrans(w1: Walker, w2: Walker, w3: Walker, lo: nat, hi: nat, extra: set<CtlLabel>)
    requires Learns(w1, w2, lo, hi, extra) && Learns(w2, w3, lo, hi, extra)
    ensures Learns(w1, w3, lo, hi, extra)
  {
  }

  /** A piece that learned about a sub-range and some extra labels learned
      about a wider range. */
  lemma LearnsWiden(w: Walker, w1: Walker, lo1: nat, hi1: nat, extra1: set<CtlLabel>, lo: nat, hi: nat, extra: set<CtlLabel>)
    requires Learns(w, w1, lo1, hi1, extra1) && lo <= lo1 && hi1 <= hi
    requires forall l :: l in extra1 ==> l in extra || lo <= l.id < hi
    ensures Learns(w, w1, lo, hi, extra)
  {
  }

  lemma GrowsTrans(w1: Walker, w2: Walker, w3: Walker, a: nat, b: nat, c: nat, extra: set<CtlLabel>)
    requires Grows(w1, w2, a, b, extra) && Grows(w2, w3, b, c, extra)
    requires forall l :: l in extra ==> l.id < a
    ensures Grows(w1, w3, a, c, extra)
  {
  }

  /** A piece whose range lies inside a later piece's range is absorbed
      into it. */
  lemma GrowsCover(w1: Walker, w2: Walker, w3: Walker, lo1: nat, hi1: nat, lo2: nat, hi2: nat, extra: set<CtlLabel>)
    requires Grows(w1, w2, lo1, hi1, extra) && Grows(w2, w3, lo2, hi2, extra)
    requires lo2 <= lo1 && hi1 <= hi2
    ensures Grows(w1, w3, lo2, hi2, extra)
  {
  }

  lemma GrowsWiden(w: Walker, w1: Walker, lo: nat, hi: nat, extra: set<CtlLabel>, extra1: set<CtlLabel>)
    requires Grows(w, w1, lo, hi, extra) && extra <= extra1
    ensures Grows(w, w1, lo, hi, extra1)
  {
  }

  /** Labels above the range a piece of code numbered stay fresh after it. */
  lemma FreshRest(w: Walker, w1: Walker, lo: nat, mid: nat, hi: nat, extra: set<CtlLabel>)
    requires FreshIn(w, lo, hi) && Grows(w, w1, lo, mid, extra) && mid <= hi
    requires forall l :: l in extra ==> l.id < mid || hi <= l.id
    ensures FreshIn(w1, mid, hi)
  {
  }

  /** Two instructions in a row. */
  lemma Walk2(w: Walker, i: Instr, j: Instr)
    ensures Walk(w, [i, j]) == (if Step(w, i).None? then None else Step(Step(w, i).value, j))
  {
    WalkAppend(w, [i], [j]);
    assert [i] + [j] == [i, j];
    WalkOne(w, i);
    if Step(w, i).Some? {
      WalkOne(Step(w, i).value, j);
    }
  }
}
