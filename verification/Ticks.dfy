/** The semantics of the intermediate representation one instruction at a time, for functions without phis. */
module Ticks {
  import opened ControlFlow
  import opened IR

  /** About to execute instruction `k` of a block, or returned, or stuck. */
  datatype Conf = Here(b: Block, k: nat, s: State) | Over(vals: seq<Val>, s: State) | Dead

  function Tick(w: World, code: map<Block, seq<Instr>>, c: Conf): Conf {
    match c
    case Here(b, k, s) =>
      if b !in code || k >= |code[b]| then Dead
      else if code[b][k].IsTerminator() then
        match ExecExit(w, code[b][k], s)
        case Some(Goto(t)) => Here(t, 0, s)
        case Some(Return(vs)) => Over(vs, s)
        case None => Dead
      else
        (match ExecInstr(w, code[b][k], s)
         case Some(s') => Here(b, k + 1, s')
         case None => Dead)
    case _ => c
  }

  function Ticking(w: World, code: map<Block, seq<Instr>>, n: nat, c: Conf): Conf {
    if n == 0 then c else Ticking(w, code, n - 1, Tick(w, code, c))
  }

  lemma {:induction false} TickingAdd(w: World, code: map<Block, seq<Instr>>, n: nat, m: nat, c: Conf)
    ensures Ticking(w, code, n + m, c) == Ticking(w, code, m, Ticking(w, code, n, c))
  {
    if n > 0 {
      TickingAdd(w, code, n - 1, m, Tick(w, code, c));
    }
  }

  lemma {:induction false} Rests(w: World, code: map<Block, seq<Instr>>, n: nat, c: Conf)
    requires !c.Here?
    ensures Ticking(w, code, n, c) == c
  {
    if n > 0 {
      Rests(w, code, n - 1, c);
    }
  }

  /** A run that has stopped stays where it is. */
  lemma Settled(w: World, code: map<Block, seq<Instr>>, n: nat, m: nat, c: Conf)
    requires n <= m && !Ticking(w, code, n, c).Here?
    ensures Ticking(w, code, m, c) == Ticking(w, code, n, c)
  {
    TickingAdd(w, code, n, m - n, c);
    Rests(w, code, m - n, Ticking(w, code, n, c));
  }

  /** The function without phis. */
  function NoPhis(code: map<Block, seq<Instr>>): Body {
    Body(map b | b in code :: [], code)
  }

  /** The run of `n` instructions returns at the end of the block, or still has `m` to go in another. */
  ghost predicate GoesOn(w: World, code: map<Block, seq<Instr>>, n: nat, m: nat, c: Conf, end: (State, Exit)) {
    match end.1
    case Return(vs) => Ticking(w, code, n, c) == Over(vs, end.0)
    case Goto(t) => m < n && Ticking(w, code, m, Here(t, 0, end.0)) == Ticking(w, code, n, c)
  }

  /** The rest of a block, instruction by instruction: a run that returns has executed the rest of the
      block and either returned there or gone on to another block. */
  lemma {:induction false} RestOfBlock(w: World, code: map<Block, seq<Instr>>, b: Block, k: nat, s: State, n: nat)
    returns (m: nat)
    requires b in code && k <= |code[b]| && Ticking(w, code, n, Here(b, k, s)).Over?
    ensures ExecCode(w, code[b][k..], s).Some?
    ensures GoesOn(w, code, n, m, Here(b, k, s), ExecCode(w, code[b][k..], s).value)
    decreases n
  {
    m := 0;
    if n == 0 || k == |code[b]| {
      Rests(w, code, if n == 0 then 0 else n - 1, Dead);
      assert false;
    } else {
      var i := code[b][k];
      assert code[b][k..][0] == i && code[b][k..][1..] == code[b][k + 1..];
      var next := Tick(w, code, Here(b, k, s));
      if i.IsTerminator() {
        if next.Here? {
          m := n - 1;
        } else {
          Rests(w, code, n - 1, next);
        }
      } else {
        if next.Dead? {
          Rests(w, code, n - 1, next);
          assert false;
        } else {
          m := RestOfBlock(w, code, b, k + 1, next.s, n - 1);
        }
      }
    }
  }

  lemma {:induction false} RunFirst(w: World, f: Body, n: nat, p: Point)
    ensures Run(w, f, n + 1, p) == Run(w, f, n, Advance(w, f, p))
  {
    if n > 0 {
      RunFirst(w, f, n - 1, p);
    }
  }

  lemma {:induction false} NoPhisEnter(w: World, code: map<Block, seq<Instr>>, b: Block, s: State)
    requires b in code && ExecCode(w, code[b], s).Some? && ExecCode(w, code[b], s).value.1.Goto?
    requires ExecCode(w, code[b], s).value.1.target in code
    ensures Advance(w, NoPhis(code), At(b, s)) == At(ExecCode(w, code[b], s).value.1.target,
                                                     ExecCode(w, code[b], s).value.0)
  {
  }

  /** A run that returns instruction by instruction returns the same block by block. */
  lemma {:induction false} RunReturns(w: World, code: map<Block, seq<Instr>>, b: Block, s: State, n: nat)
    returns (blocks: nat)
    requires b in code && Ticking(w, code, n, Here(b, 0, s)).Over?
    ensures var end := Ticking(w, code, n, Here(b, 0, s));
      Run(w, NoPhis(code), blocks, At(b, s)) == Finished(end.vals, end.s)
    decreases n
  {
    assert code[b][0..] == code[b];
    var m := RestOfBlock(w, code, b, 0, s, n);
    var (s', e) := ExecCode(w, code[b], s).value;
    match e {
      case Return(vs) =>
        blocks := 1;
        RunFirst(w, NoPhis(code), 0, At(b, s));
      case Goto(t) =>
        if t !in code {
          Rests(w, code, if m == 0 then 0 else m - 1, Dead);
          assert false;
        } else {
          var k := RunReturns(w, code, t, s', m);
          NoPhisEnter(w, code, b, s);
          RunFirst(w, NoPhis(code), k, At(b, s));
          blocks := k + 1;
        }
    }
  }

  /** Where a run stands block by block, as a run instruction by instruction sees it. */
  function Seen(p: Point): Conf {
    match p
    case At(b, s) => Here(b, 0, s)
    case Finished(vs, s) => Over(vs, s)
    case Stuck => Dead
  }

  function Left(end: Option<(State, Exit)>): Conf {
    match end
    case Some((s, Goto(t))) => Here(t, 0, s)
    case Some((s, Return(vs))) => Over(vs, s)
    case None => Dead
  }

  /** The rest of a block takes some number of instructions. */
  lemma {:induction false} BlockTicks(w: World, code: map<Block, seq<Instr>>, b: Block, k: nat, s: State)
    returns (n: nat)
    requires b in code && k <= |code[b]|
    ensures Ticking(w, code, n, Here(b, k, s)) == Left(ExecCode(w, code[b][k..], s))
    decreases |code[b]| - k
  {
    n := 1;
    assert Ticking(w, code, 1, Here(b, k, s)) == Tick(w, code, Here(b, k, s));
    if k < |code[b]| {
      var i := code[b][k];
      assert code[b][k..][0] == i && code[b][k..][1..] == code[b][k + 1..];
      if !i.IsTerminator() && ExecInstr(w, i, s).Some? {
        var m := BlockTicks(w, code, b, k + 1, ExecInstr(w, i, s).value);
        n := m + 1;
      }
    }
  }

  lemma {:induction false} StepTicks(w: World, code: map<Block, seq<Instr>>, p: Point) returns (n: nat)
    ensures Ticking(w, code, n, Seen(p)) == Seen(Advance(w, NoPhis(code), p))
  {
    n := 0;
    if p.At? {
      if p.block !in code {
        n := 1;
        assert Ticking(w, code, 1, Seen(p)) == Tick(w, code, Seen(p));
      } else {
        var s := code[p.block];
        assert s[0..] == s;
        var m := BlockTicks(w, code, p.block, 0, p.state);
        n := m;
        var end := ExecCode(w, s, p.state);
        if end.Some? && end.value.1.Goto? {
          if end.value.1.target in code {
            NoPhisEnter(w, code, p.block, p.state);
          } else {
            TickingAdd(w, code, m, 1, Seen(p));
            n := m + 1;
          }
        }
      }
    }
  }

  /** A run block by block is a run instruction by instruction. */
  lemma {:induction false} RunTicks(w: World, code: map<Block, seq<Instr>>, blocks: nat, p: Point) returns (n: nat)
    ensures Ticking(w, code, n, Seen(p)) == Seen(Run(w, NoPhis(code), blocks, p))
  {
    n := 0;
    if blocks > 0 {
      var m := RunTicks(w, code, blocks - 1, p);
      var k := StepTicks(w, code, Run(w, NoPhis(code), blocks - 1, p));
      TickingAdd(w, code, m, k, Seen(p));
      n := m + k;
    }
  }
}
