/** The functions of a module, as the passes over whole modules see them. */
module Functions {
  import opened ControlFlow
  import opened IR

  /** An instruction of a block, phis included. */
  datatype Node = Head(phi: Phi) | Inner(instr: Instr)
  {
    function Id(): Id {
      match this
      case Head(p) => p.id
      case Inner(i) => i.id
    }

    /** The values it uses.  The blocks among the operands of a phi or branch are not instructions. */
    function Uses(): seq<Operand> {
      match this
      case Head(p) => Values(p.pairs)
      case Inner(i) => i.Operands()
    }
  }

  function Values(pairs: seq<(Operand, Block)>): seq<Operand> {
    if pairs == [] then [] else [pairs[0].0] + Values(pairs[1..])
  }

  /** The instruction that computes the operand, if one does: a slot is the result of its alloca. */
  function Def(o: Operand): Option<Id> {
    match o
    case Slot(v) => Some(v)
    case Elem(id) => Some(id)
    case Reg(id) => Some(id)
    case _ => None
  }

  function Defs(os: seq<Operand>): set<Id> {
    set o | o in os && Def(o).Some? :: Def(o).value
  }

  lemma DefsNone()
    ensures Defs([]) == {}
  {
  }

  lemma DefsNext(os: seq<Operand>, i: nat)
    requires i < |os|
    ensures Defs(os[..i + 1]) == Defs(os[..i]) + if Def(os[i]).Some? then {Def(os[i]).value} else {}
  {
    assert os[..i + 1] == os[..i] + [os[i]];
  }

  /** The types that the passes tell apart. */
  datatype Kind = Integer | Float | Pointer

  /** A function without blocks is a declaration. */
  datatype Func = Func(name: string, params: seq<Kind>, blocks: seq<Block>, body: Body)

  /** The functions of a module, every instruction by its identity, and the instructions of pointer type. */
  datatype Program = Program(funcs: seq<Func>, nodes: map<Id, Node>, pointers: set<Id>)

  ghost predicate HasNode(f: Func, n: Node) {
    exists b :: b in f.blocks && NodeIn(f, b, n)
  }

  ghost predicate NodeIn(f: Func, b: Block, n: Node) {
    match n
    case Head(p) => b in f.body.phis && p in f.body.phis[b]
    case Inner(i) => b in f.body.code && i in f.body.code[b]
  }

  function Heads(row: seq<Phi>): (r: seq<Node>)
    ensures forall n {:trigger n in r} :: n in r <==> n.Head? && n.phi in row
  {
    if row == [] then [] else [Head(row[0])] + Heads(row[1..])
  }

  function Inners(code: seq<Instr>): (r: seq<Node>)
    ensures forall n {:trigger n in r} :: n in r <==> n.Inner? && n.instr in code
  {
    if code == [] then [] else [Inner(code[0])] + Inners(code[1..])
  }

  /** The instructions of a block in order, phis first. */
  function NodesOf(f: Func, b: Block): (r: seq<Node>)
    requires b in f.body.phis && b in f.body.code
    ensures forall n {:trigger n in r} {:trigger NodeIn(f, b, n)} :: n in r <==> NodeIn(f, b, n)
  {
    Heads(f.body.phis[b]) + Inners(f.body.code[b])
  }

  /** Every listed block has its instructions, `nodes` finds them, and what an instruction of the function
      uses is computed by an instruction of the function. */
  ghost predicate Indexed(f: Func, nodes: map<Id, Node>) {
    && (forall b {:trigger b in f.blocks} :: b in f.blocks ==> b in f.body.code && b in f.body.phis)
    && (forall n {:trigger HasNode(f, n)} :: HasNode(f, n) ==> n.Id() in nodes && nodes[n.Id()] == n)
    && (forall n, o {:trigger HasNode(f, n), Def(o)} ::
          HasNode(f, n) && o in n.Uses() && Def(o).Some? ==> OwnedBy(f, nodes, Def(o).value))
  }

  ghost predicate OwnedBy(f: Func, nodes: map<Id, Node>, id: Id) {
    id in nodes && nodes[id].Id() == id && HasNode(f, nodes[id])
  }

  /** A work list has grown at its end by exactly the added members, each once. */
  ghost predicate Enqueued<T(!new)>(queue: seq<T>, queue': seq<T>, added: set<T>) {
    && |queue'| == |queue| + |added| && queue'[..|queue|] == queue
    && forall x {:trigger x in added} :: x in added <==> x in queue'[|queue|..]
  }

  lemma EnqueuedNone<T(!new)>(queue: seq<T>, members: set<T>)
    ensures Enqueued(queue, queue, members - members)
  {
    assert members - members == {};
  }

  /** What makes the runs over work lists end: the list grows only when the set of those left shrinks. */
  lemma EnqueuedSome<T(!new)>(queue: seq<T>, queue': seq<T>, left: set<T>, left': set<T>)
    requires left' <= left && Enqueued(queue, queue', left - left')
    ensures left' < left || (left' == left && queue' == queue)
  {
    if left' == left {
      assert left - left' == {};
    } else {
      assert exists x :: x in left && x !in left';
    }
  }

  lemma EnqueuedMore<T(!new)>(queue: seq<T>, queue': seq<T>, all: set<T>, found: set<T>, found': set<T>)
    requires found <= found' <= all && Enqueued(queue, queue', found' - found)
    ensures all - found' < all - found || (found' == found && queue' == queue)
  {
    assert found' - found == (all - found) - (all - found');
    EnqueuedSome(queue, queue', all - found, all - found');
    assert all - (all - found) == found && all - (all - found') == found';
  }

  lemma EnqueuedNext<T(!new)>(queue: seq<T>, queue': seq<T>, added: set<T>, x: T)
    requires Enqueued(queue, queue', added) && x !in added
    ensures Enqueued(queue, queue' + [x], added + {x})
  {
    assert (queue' + [x])[|queue|..] == queue'[|queue|..] + [x];
  }

  lemma EnqueuedLater<T(!new)
    >(queue: seq<T>, queue': seq<T>, queue'': seq<T>, found: set<T>, found': set<T>, found'': set<T>)
    requires found <= found' <= found''
    requires Enqueued(queue, queue', found' - found) && Enqueued(queue', queue'', found'' - found')
    ensures Enqueued(queue, queue'', found'' - found)
  {
    assert found'' - found == (found' - found) + (found'' - found');
    assert queue''[|queue|..] == queue'[|queue|..] + queue''[|queue'|..];
    assert queue''[..|queue|] == queue''[..|queue'|][..|queue|];
  }

  /** The same for what is left. */
  lemma EnqueuedLost<T(!new)
    >(queue: seq<T>, queue': seq<T>, queue'': seq<T>, left: set<T>, left': set<T>, left'': set<T>)
    requires left'' <= left' <= left
    requires Enqueued(queue, queue', left - left') && Enqueued(queue', queue'', left' - left'')
    ensures Enqueued(queue, queue'', left - left'')
  {
    hide Enqueued;
    assert left - left' == (left - left') - {} && left - left'' - (left - left') == left' - left'';
    EnqueuedLater(queue, queue', queue'', {}, left - left', left - left'');
  }

  /** The function has no blocks but the listed ones. */
  ghost predicate Listed(f: Func) {
    forall b {:trigger b in f.blocks} {:trigger b in f.body.code} {:trigger b in f.body.phis} ::
      (b in f.blocks <==> b in f.body.code) && (b in f.blocks <==> b in f.body.phis)
  }
}
