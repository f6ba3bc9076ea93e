/** The tokeniser's driver loop (lexer.hpp:91-127).  The input file is a
    string, and the table of token patterns (lexer.hpp:8-87) is a predicate
    `anyMatch`: the loop only asks whether some pattern matches the
    candidate extended by the next character, never which one. */
module Lexer {
  import opened Text

  /** No whitespace character in `s`. */
  predicate NoSpace(s: string) {
    forall k :: 0 <= k < |s| ==> !IsSpace(s[k])
  }

  /** Every token is non-empty and free of whitespace. */
  predicate WellFormed(tokens: seq<string>) {
    forall i :: 0 <= i < |tokens| ==> tokens[i] != "" && NoSpace(tokens[i])
  }

  /** The characters of `s` that are not whitespace, in order. */
  function NonSpace(s: string): (r: string)
    ensures |r| <= |s| && NoSpace(r)
  {
    if s == [] then [] else (if IsSpace(s[0]) then [] else [s[0]]) + NonSpace(s[1..])
  }

  /** The tokens one after the other. */
  function Flatten(tokens: seq<string>): string {
    if tokens == [] then [] else tokens[0] + Flatten(tokens[1..])
  }

  lemma {:induction false} NonSpaceAppend(a: string, b: string)
    ensures NonSpace(a + b) == NonSpace(a) + NonSpace(b)
  {
    if a != [] {
      assert (a + b)[1..] == a[1..] + b;
      NonSpaceAppend(a[1..], b);
    } else {
      assert a + b == b;
    }
  }

  lemma {:induction false} FlattenAppend(ts: seq<string>, us: seq<string>)
    ensures Flatten(ts + us) == Flatten(ts) + Flatten(us)
  {
    if ts != [] {
      assert (ts + us)[1..] == ts[1..] + us;
      FlattenAppend(ts[1..], us);
    } else {
      assert ts + us == us;
    }
  }

  /** Where the loop stands: the characters not yet read and the candidate
      built so far. */
  datatype LexState = LexState(rest: string, cand: string)

  /** What one pass of the loop body emits and where it leaves the loop. */
  datatype Move = Move(emit: seq<string>, next: LexState)

  /** One pass of the loop body (lexer.hpp:92-123) on the next character
      `c`: whitespace is consumed and flushes a non-empty candidate; if the
      candidate extended by `c` matches some pattern, a non-empty candidate
      is emitted and `c` stays unread, while with an empty candidate `c` is
      emitted alone and consumed; otherwise `c` joins the candidate. */
  function Step(st: LexState, anyMatch: string -> bool): (m: Move)
    requires st.rest != []
    ensures |m.next.rest| < |st.rest| || (m.next.rest == st.rest && |m.next.cand| < |st.cand|)
  {
    var c := st.rest[0];
    if IsSpace(c) then Move(if st.cand != [] then [st.cand] else [], LexState(st.rest[1..], []))
    else if anyMatch(st.cand + [c]) then
      if st.cand != [] then Move([st.cand], LexState(st.rest, []))
      else Move([[c]], LexState(st.rest[1..], []))
    else Move([], LexState(st.rest[1..], st.cand + [c]))
  }

  /** The tokens the loop emits from `st` until the input runs out. */
  function Scan(st: LexState, anyMatch: string -> bool): seq<string>
    decreases |st.rest|, |st.cand|
  {
    if st.rest == [] then [] else
    var m := Step(st, anyMatch);
    m.emit + Scan(m.next, anyMatch)
  }

  /** The candidate still pending when the input runs out; the loop ends
      without emitting it (lexer.hpp:124-127). */
  function Pending(st: LexState, anyMatch: string -> bool): string
    decreases |st.rest|, |st.cand|
  {
    if st.rest == [] then st.cand else Pending(Step(st, anyMatch).next, anyMatch)
  }

  /** The tokens of a whole file. */
  function Tokens(input: string, anyMatch: string -> bool): seq<string> {
    Scan(LexState(input, []), anyMatch)
  }

  /** `[t]` spells `t`. */
  lemma FlattenOne(t: string)
    ensures Flatten([t]) == t
  {
    assert Flatten([t]) == t + Flatten([]);
  }

  /** One pass of the loop keeps the invariant: the tokens it emits, then
      the new candidate, then the non-whitespace characters still unread
      spell the old candidate and the old unread non-whitespace characters. */
  lemma StepCovers(st: LexState, anyMatch: string -> bool)
    requires st.rest != []
    ensures var m := Step(st, anyMatch);
            Flatten(m.emit) + m.next.cand + NonSpace(m.next.rest) == st.cand + NonSpace(st.rest)
  {
    var c := st.rest[0];
    var m := Step(st, anyMatch);
    if IsSpace(c) {
      assert NonSpace(st.rest) == NonSpace(st.rest[1..]);
      if st.cand != [] {
        FlattenOne(st.cand);
      }
    } else {
      assert NonSpace(st.rest) == [c] + NonSpace(st.rest[1..]);
      if anyMatch(st.cand + [c]) {
        if st.cand != [] {
          FlattenOne(st.cand);
        } else {
          FlattenOne([c]);
        }
      }
    }
  }

  /** One pass emits only non-empty, whitespace-free tokens and keeps the
      candidate free of whitespace. */
  lemma StepWellFormed(st: LexState, anyMatch: string -> bool)
    requires st.rest != [] && NoSpace(st.cand)
    ensures WellFormed(Step(st, anyMatch).emit) && NoSpace(Step(st, anyMatch).next.cand)
  {
    var c := st.rest[0];
    if !IsSpace(c) && !anyMatch(st.cand + [c]) {
      assert forall k :: 0 <= k < |st.cand| ==> (st.cand + [c])[k] == st.cand[k];
    }
  }

  /** The loop's invariant, followed to the end of the input: the emitted
      tokens and then the discarded candidate spell the starting candidate
      and the non-whitespace characters of the input. */
  lemma {:induction false} ScanCovers(st: LexState, anyMatch: string -> bool)
    ensures Flatten(Scan(st, anyMatch)) + Pending(st, anyMatch) == st.cand + NonSpace(st.rest)
    decreases |st.rest|, |st.cand|
  {
    if st.rest == [] {
      assert st.cand + NonSpace(st.rest) == st.cand;
    } else {
      var m := Step(st, anyMatch);
      var e, t, p := Flatten(m.emit), Flatten(Scan(m.next, anyMatch)), Pending(m.next, anyMatch);
      var n, r := m.next.cand, NonSpace(m.next.rest);
      assert Scan(st, anyMatch) == m.emit + Scan(m.next, anyMatch);
      assert Pending(st, anyMatch) == p;
      ScanCovers(m.next, anyMatch);
      StepCovers(st, anyMatch);
      FlattenAppend(m.emit, Scan(m.next, anyMatch));
      Assoc(e, t, p);
      Assoc(e, n, r);
    }
  }

  /** No emitted token is empty or contains whitespace. */
  lemma {:induction false} ScanWellFormed(st: LexState, anyMatch: string -> bool)
    requires NoSpace(st.cand)
    ensures WellFormed(Scan(st, anyMatch))
    decreases |st.rest|, |st.cand|
  {
    if st.rest != [] {
      var m := Step(st, anyMatch);
      StepWellFormed(st, anyMatch);
      ScanWellFormed(m.next, anyMatch);
    }
  }

  /** A step does not look past the next character. */
  lemma StepAppend(x: string, y: string, cand: string, anyMatch: string -> bool)
    requires x != []
    ensures var m, n := Step(LexState(x + y, cand), anyMatch), Step(LexState(x, cand), anyMatch);
            m.emit == n.emit && m.next.cand == n.next.cand && m.next.rest == n.next.rest + y
  {
    assert (x + y)[0] == x[0];
    assert (x + y)[1..] == x[1..] + y;
  }

  /** A whitespace character cuts the input in two independent halves: what
      follows it is tokenised as if it started the file. */
  lemma {:induction false} SpaceSeparates(a: string, sp: char, b: string, cand: string, anyMatch: string -> bool)
    requires IsSpace(sp)
    ensures Scan(LexState(a + [sp] + b, cand), anyMatch)
            == Scan(LexState(a + [sp], cand), anyMatch) + Scan(LexState(b, []), anyMatch)
    decreases |a|, |cand|
  {
    var x := a + [sp];
    var tail := Scan(LexState(b, []), anyMatch);
    StepAppend(x, b, cand, anyMatch);
    var m := Step(LexState(x + b, cand), anyMatch);
    var n := Step(LexState(x, cand), anyMatch);
    assert Scan(LexState(x + b, cand), anyMatch) == m.emit + Scan(m.next, anyMatch);
    assert Scan(LexState(x, cand), anyMatch) == n.emit + Scan(n.next, anyMatch);
    if a == [] {
      assert x[0] == sp && x[1..] == [];
      assert n.next == LexState([], []) && m.next == LexState(b, []);
      assert Scan(n.next, anyMatch) == [];
      assert n.emit + [] == n.emit;
    } else {
      assert x[0] == a[0] && x[1..] == a[1..] + [sp];
      var a' := if n.next.rest == x then a else a[1..];
      assert n.next.rest == a' + [sp];
      assert m.next == LexState(a' + [sp] + b, n.next.cand);
      SpaceSeparates(a', sp, b, n.next.cand, anyMatch);
      Assoc(n.emit, Scan(n.next, anyMatch), tail);
    }
  }

  /** A candidate still pending when the file ends is dropped, while the
      same text followed by a blank is emitted. */
  lemma PendingDiscarded()
    ensures var never := (s: string) => false;
            && Tokens("ab", never) == []
            && Pending(LexState("ab", []), never) == "ab"
            && Tokens("ab ", never) == ["ab"]
  {
    var never := (s: string) => false;
    assert "ab"[1..] == "b" && "b"[1..] == "";
    assert Step(LexState("ab", []), never) == Move([], LexState("b", "a"));
    assert Step(LexState("b", "a"), never) == Move([], LexState("", "ab"));
    assert Scan(LexState("b", "a"), never) == [];
    assert Pending(LexState("b", "a"), never) == "ab";
    assert "ab "[1..] == "b " && "b "[1..] == " " && " "[1..] == "";
    assert Step(LexState("ab ", []), never) == Move([], LexState("b ", "a"));
    assert Step(LexState("b ", "a"), never) == Move([], LexState(" ", "ab"));
    assert Step(LexState(" ", "ab"), never) == Move(["ab"], LexState("", ""));
    assert Scan(LexState(" ", "ab"), never) == ["ab"];
    assert Scan(LexState("b ", "a"), never) == ["ab"];
  }

  /** The characters one per token. */
  function Singles(s: string): (r: seq<string>)
    ensures |r| == |s| && forall i :: 0 <= i < |s| ==> r[i] == [s[i]]
  {
    if s == [] then [] else [[s[0]]] + Singles(s[1..])
  }

  /** When every single character is a token on its own, the candidate
      never grows: each non-whitespace character is emitted alone and
      nothing is left pending. */
  lemma {:induction false} EveryCharMatches(rest: string, anyMatch: string -> bool)
    requires forall c: char :: anyMatch([c])
    ensures Tokens(rest, anyMatch) == Singles(NonSpace(rest))
    ensures Pending(LexState(rest, []), anyMatch) == []
  {
    if rest != [] {
      var c := rest[0];
      EveryCharMatches(rest[1..], anyMatch);
      if !IsSpace(c) {
        assert [] + [c] == [c];
        assert anyMatch([c]);
        assert Step(LexState(rest, []), anyMatch) == Move([[c]], LexState(rest[1..], []));
        assert NonSpace(rest) == [c] + NonSpace(rest[1..]);
      } else {
        assert Step(LexState(rest, []), anyMatch) == Move([], LexState(rest[1..], []));
        assert NonSpace(rest) == NonSpace(rest[1..]);
      }
    }
  }

  /** The loop's invariant, stated with the unread rest, carried over one
      pass of the loop body. */
  lemma ReadStep(tokens: seq<string>, st: LexState, all: string, anyMatch: string -> bool)
    requires st.rest != [] && Flatten(tokens) + st.cand + NonSpace(st.rest) == all
    ensures var m := Step(st, anyMatch);
            Flatten(tokens + m.emit) + m.next.cand + NonSpace(m.next.rest) == all
  {
    var m := Step(st, anyMatch);
    var f, e, n, r := Flatten(tokens), Flatten(m.emit), m.next.cand, NonSpace(m.next.rest);
    StepCovers(st, anyMatch);
    FlattenAppend(tokens, m.emit);
    Assoc(f, e, n);
    Assoc(f, e + n, r);
    Assoc(f, st.cand, NonSpace(st.rest));
  }

  /** The same invariant stated with the characters read so far: the
      emitted tokens followed by the candidate are the non-whitespace
      characters of `input[..pos]`. */
  lemma SoFar(tokens: seq<string>, cand: string, input: string, pos: nat)
    requires pos <= |input| && Flatten(tokens) + cand + NonSpace(input[pos..]) == NonSpace(input)
    ensures Flatten(tokens) + cand == NonSpace(input[..pos])
  {
    var x, a, r := Flatten(tokens) + cand, NonSpace(input[..pos]), NonSpace(input[pos..]);
    assert input[..pos] + input[pos..] == input;
    NonSpaceAppend(input[..pos], input[pos..]);
    assert |x| == |a|;
    assert (x + r)[..|x|] == x;
    assert (a + r)[..|a|] == a;
  }

  /** The loop's invariant after reading `input[..pos]`: the tokens so far
      and the tokens still to come make up the whole result; the pending
      candidate is the one that will be left at the end; every token is
      well formed; and the tokens followed by the candidate are the
      non-whitespace characters read so far. */
  predicate LexInv(input: string, anyMatch: string -> bool, tokens: seq<string>, cand: string, pos: nat) {
    && pos <= |input|
    && tokens + Scan(LexState(input[pos..], cand), anyMatch) == Tokens(input, anyMatch)
    && Pending(LexState(input[pos..], cand), anyMatch) == Pending(LexState(input, []), anyMatch)
    && WellFormed(tokens) && NoSpace(cand)
    && Flatten(tokens) + cand + NonSpace(input[pos..]) == NonSpace(input)
    && Flatten(tokens) + cand == NonSpace(input[..pos])
  }

  /** One pass of the loop body keeps the invariant, whichever branch it
      takes, as long as it does what `Step` says. */
  lemma Advance(input: string, anyMatch: string -> bool, tokens: seq<string>, cand: string, pos: nat,
                tokens': seq<string>, cand': string, pos': nat)
    requires LexInv(input, anyMatch, tokens, cand, pos) && pos < |input|
    requires var m := Step(LexState(input[pos..], cand), anyMatch);
             && tokens' == tokens + m.emit && cand' == m.next.cand
             && pos <= pos' <= |input| && input[pos'..] == m.next.rest
    ensures LexInv(input, anyMatch, tokens', cand', pos')
  {
    var st := LexState(input[pos..], cand);
    var m := Step(st, anyMatch);
    assert m.next == LexState(input[pos'..], cand');
    StepWellFormed(st, anyMatch);
    ReadStep(tokens, st, NonSpace(input), anyMatch);
    assert Scan(st, anyMatch) == m.emit + Scan(m.next, anyMatch);
    Assoc(tokens, m.emit, Scan(m.next, anyMatch));
    SoFar(tokens', cand', input, pos');
  }

  lemma LexStart(input: string, anyMatch: string -> bool)
    ensures LexInv(input, anyMatch, [], [], 0)
  {
    assert input[0..] == input && input[..0] == [];
    assert [] + Scan(LexState(input, []), anyMatch) == Scan(LexState(input, []), anyMatch);
  }

  /** At the end of the input the invariant is the method's promise. */
  lemma LexEnd(input: string, anyMatch: string -> bool, tokens: seq<string>, cand: string)
    requires LexInv(input, anyMatch, tokens, cand, |input|)
    ensures tokens == Tokens(input, anyMatch)
    ensures Flatten(tokens) + Pending(LexState(input, []), anyMatch) == NonSpace(input)
  {
    assert input[|input|..] == [];
    assert tokens + [] == tokens;
  }

  /** The loop of lexer.hpp:91-124 over the input, one peeked character at
      a time. */
  method Lex(input: string, anyMatch: string -> bool) returns (tokens: seq<string>)
    ensures tokens == Tokens(input, anyMatch)
    ensures WellFormed(tokens)
    ensures Flatten(tokens) + Pending(LexState(input, []), anyMatch) == NonSpace(input)
  {
    tokens := [];
    var cand: string := [];
    var pos := 0;
    LexStart(input, anyMatch);
    while pos < |input|
      invariant LexInv(input, anyMatch, tokens, cand, pos)
      decreases |input| - pos, |cand|
    {
      var c := input[pos];
      ghost var tokens0, cand0, pos0 := tokens, cand, pos;
      assert input[pos..][0] == c && input[pos..][1..] == input[pos + 1..];
      if IsSpace(c) {
        if cand != [] {
          tokens := tokens + [cand];
        } else {
          assert tokens + [] == tokens;
        }
        cand := [];
        pos := pos + 1;
      } else if anyMatch(cand + [c]) {
        if cand != [] {
          tokens := tokens + [cand];
          cand := [];
        } else {
          tokens := tokens + [[c]];
          pos := pos + 1;
        }
      } else {
        assert tokens + [] == tokens;
        cand := cand + [c];
        pos := pos + 1;
      }
      Advance(input, anyMatch, tokens0, cand0, pos0, tokens, cand, pos);
    }
    LexEnd(input, anyMatch, tokens, cand);
  }
}
