/** MicroCalc's shift/reduce automaton: its tables, one turn of its loop, and the loop. */
module McAutomaton {
  import opened McGrammar

  const PARSER_STACK_SIZE: nat := 20

  datatype Action = Shift(state: nat) | Reduce(prod: nat) | Accept | Error

  /** `gotostate`: the state after production `p` is reduced on top of state `s`; 30 is an error. */
  function Goto(p: nat, s: nat): nat {
    if p <= 3 then
      if s == 0 then 1 else if s == 9 then 19 else if s == 20 then 28 else 30
    else if p <= 6 then
      if s in {0, 9, 20} then 2 else if s == 12 then 21 else if s == 13 then 22 else 30
    else if p <= 8 then
      if s in {0, 9, 12, 13, 20} then 3 else if s == 14 then 23 else if s == 15 then 24 else if s == 16 then 25 else 30
    else if p <= 10 then
      if s in {0, 9, 12, 13, 14, 15, 16, 20} then 4 else 30
    else if p <= 12 then
      if s in {0, 9, 12, 13, 14, 15, 16, 20} then 6 else if s == 5 then 17 else 30
    else
      if s in {0, 5, 9, 12, 13, 14, 15, 16, 20} then 8 else 30
  }

  /** The switch of `parse`: what state `s` does on lookahead `k`. */
  function ActionFor(s: nat, k: Symbol): Action {
    if s in {0, 9, 12, 13, 14, 15, 16, 20} then
      if k == NUM then Shift(10) else if k == CELL then Shift(7) else if k == FUNC then Shift(11)
      else if k == MINUS then Shift(5) else if k == OPAREN then Shift(9) else Error
    else if s == 1 then
      if k == EOLN then Accept else if k == PLUS then Shift(12) else if k == MINUS then Shift(13) else Error
    else if s == 2 then
      if k == TIMES then Shift(14) else if k == DIVIDE then Shift(15) else Reduce(3)
    else if s == 3 then Reduce(6)
    else if s == 4 then
      if k == EXP then Shift(16) else Reduce(8)
    else if s == 5 then
      if k == NUM then Shift(10) else if k == CELL then Shift(7) else if k == FUNC then Shift(11)
      else if k == OPAREN then Shift(9) else Error
    else if s == 6 then Reduce(10)
    else if s == 7 then
      if k == COLON then Shift(18) else Reduce(13)
    else if s == 8 then Reduce(12)
    else if s == 10 then Reduce(15)
    else if s == 11 then
      if k == OPAREN then Shift(20) else Error
    else if s == 17 then Reduce(9)
    else if s == 18 then
      if k == CELL then Shift(26) else Error
    else if s == 19 then
      if k == PLUS then Shift(12) else if k == MINUS then Shift(13) else if k == CPAREN then Shift(27) else Error
    else if s == 21 then
      if k == TIMES then Shift(14) else if k == DIVIDE then Shift(15) else Reduce(1)
    else if s == 22 then
      if k == TIMES then Shift(14) else if k == DIVIDE then Shift(15) else Reduce(2)
    else if s == 23 then Reduce(4)
    else if s == 24 then Reduce(5)
    else if s == 25 then Reduce(7)
    else if s == 26 then Reduce(11)
    else if s == 27 then Reduce(14)
    else if s == 28 then
      if k == PLUS then Shift(12) else if k == MINUS then Shift(13) else if k == CPAREN then Shift(29) else Error
    else if s == 29 then Reduce(16)
    else Error
  }

  // ---- The shape of the stack ----

  datatype Rec<+V> = Rec(state: nat, x: Payload<V>)

  /** The symbol whose recognition leads into state `t`. */
  function Accessing(t: nat): Symbol {
    if t in {1, 19, 28} then Expr else if t in {2, 21, 22} then Term else if t in {3, 23, 24, 25} then Factor
    else if t == 4 then Unary else if t in {6, 17} then McGrammar.Area else if t == 8 then Atom
    else if t in {5, 13} then MINUS else if t == 12 then PLUS else if t == 14 then TIMES else if t == 15 then DIVIDE
    else if t == 16 then EXP else if t == 18 then COLON else if t in {9, 20} then OPAREN
    else if t in {27, 29} then CPAREN
    else if t == 10 then NUM else if t in {7, 26} then CELL else if t == 11 then FUNC else BAD
  }

  /** A production whose left side is `x`. */
  function SomeProd(x: Symbol): nat {
    if x == Expr then 1 else if x == Term then 4 else if x == Factor then 7 else if x == Unary then 9
    else if x == McGrammar.Area then 11 else 13
  }

  /** The automaton's edge out of `s` on symbol `x`, 30 if there is none. */
  function Trans(s: nat, x: Symbol): nat {
    if Nonterminal(x) then Goto(SomeProd(x), s)
    else if ActionFor(s, x).Shift? then ActionFor(s, x).state else 30
  }

  predicate Edge(s: nat, t: nat) {
    1 <= t <= 29 && Trans(s, Accessing(t)) == t
  }

  /** The union member that symbol `x` leaves in its stack entry. */
  predicate PayloadFits<V>(x: Symbol, p: Payload<V>) {
    && (Nonterminal(x) || x == NUM ==> p.Value?)
    && (x == CELL ==> p.CellAt?)
    && (x == FUNC ==> p.Name?)
  }

  predicate Linked<V>(stack: seq<Rec<V>>) {
    && 1 <= |stack| <= PARSER_STACK_SIZE
    && stack[0].state == 0
    && forall i :: 1 <= i < |stack| ==>
         Edge(stack[i - 1].state, stack[i].state) && PayloadFits(Accessing(stack[i].state), stack[i].x)
  }

  function Top<V>(stack: seq<Rec<V>>): nat
    requires |stack| >= 1
  {
    stack[|stack| - 1].state
  }

  /** The symbols of the topmost `n` entries. */
  function TopSymbols<V>(stack: seq<Rec<V>>, n: nat): (r: seq<Symbol>)
    requires n <= |stack|
    ensures |r| == n
    ensures forall i :: 0 <= i < n ==> r[i] == Accessing(stack[|stack| - n + i].state)
  {
    seq(n, i requires 0 <= i < n => Accessing(stack[|stack| - n + i].state))
  }

  /** The states that expect the start of an expression. */
  const OPENERS: set<nat> := {0, 9, 12, 13, 14, 15, 16, 20}

  /** The states with an edge into `t`. */
  function Sources(t: nat): set<nat> {
    if t == 1 then {0} else if t == 19 then {9} else if t == 28 then {20}
    else if t == 2 then {0, 9, 20} else if t == 21 then {12} else if t == 22 then {13}
    else if t == 3 then {0, 9, 12, 13, 20} else if t == 23 then {14} else if t == 24 then {15} else if t == 25 then {16}
    else if t in {4, 5, 6} then OPENERS
    else if t == 17 then {5}
    else if t in {7, 8, 9, 10, 11} then OPENERS + {5}
    else if t in {12, 13} then {1, 19, 28}
    else if t in {14, 15} then {2, 21, 22}
    else if t == 16 then {4} else if t == 18 then {7} else if t == 20 then {11}
    else if t == 26 then {18} else if t == 27 then {19} else if t == 29 then {28}
    else {}
  }

  lemma GotoSources(s: nat, t: nat)
    requires 1 <= t <= 29 && Nonterminal(Accessing(t))
    ensures Edge(s, t) <==> s in Sources(t)
  {
    hide ActionFor;
  }

  lemma ShiftSources(s: nat, t: nat)
    requires 1 <= t <= 29 && !Nonterminal(Accessing(t))
    ensures Edge(s, t) <==> s in Sources(t)
  {
    hide Goto;
  }

  lemma EdgeSources(s: nat, t: nat)
    requires 1 <= t <= 29
    ensures Edge(s, t) <==> s in Sources(t)
  {
    hide Edge, Sources;
    if Nonterminal(Accessing(t)) { GotoSources(s, t); } else { ShiftSources(s, t); }
  }

  /** The production that state `s` completes, 0 if none. */
  function Completes(s: nat): nat {
    if s == 21 then 1 else if s == 22 then 2 else if s == 2 then 3 else if s == 23 then 4 else if s == 24 then 5
    else if s == 3 then 6 else if s == 25 then 7 else if s == 4 then 8 else if s == 17 then 9 else if s == 6 then 10
    else if s == 26 then 11 else if s == 8 then 12 else if s == 7 then 13 else if s == 27 then 14
    else if s == 10 then 15
    else if s == 29 then 16 else 0
  }

  lemma ReducesWhatItCompletes(s: nat, k: Symbol)
    requires ActionFor(s, k).Reduce?
    ensures Production(Completes(s)) && ActionFor(s, k).prod == Completes(s)
  {
  }

  lemma Handle1(s: nat, t: nat)
    requires t in {2, 3, 4, 6, 7, 8, 10} && s in Sources(t)
    ensures Rhs(Completes(t)) == [Accessing(t)] && Goto(Completes(t), s) != 30
  {
  }

  lemma Handle2(s: nat, t1: nat, t: nat)
    requires t == 17 && t1 in Sources(t) && s in Sources(t1)
    ensures Rhs(9) == [Accessing(t1), Accessing(t)] && Goto(9, s) != 30
  {
  }

  lemma Handle3(s: nat, t1: nat, t2: nat, t: nat)
    requires t in {21, 22, 23, 24, 25, 26, 27} && t2 in Sources(t) && t1 in Sources(t2) && s in Sources(t1)
    ensures Rhs(Completes(t)) == [Accessing(t1), Accessing(t2), Accessing(t)] && Goto(Completes(t), s) != 30
  {
  }

  lemma Handle4(s: nat, t1: nat, t2: nat, t3: nat, t: nat)
    requires t == 29 && t3 in Sources(t) && t2 in Sources(t3) && t1 in Sources(t2) && s in Sources(t1)
    ensures Rhs(16) == [Accessing(t1), Accessing(t2), Accessing(t3), Accessing(t)] && Goto(16, s) != 30
  {
  }

  /** The handle: when a state asks for a reduction, the right side lies on top of the stack
      and the state below it has somewhere to go. So no reduction ever underflows the stack. */
  lemma HandleOnTop<V>(stack: seq<Rec<V>>, k: Symbol)
    requires Linked(stack) && ActionFor(Top(stack), k).Reduce?
    ensures var p := ActionFor(Top(stack), k).prod;
      && Production(p) && |Rhs(p)| < |stack| && TopSymbols(stack, |Rhs(p)|) == Rhs(p)
      && Goto(p, stack[|stack| - 1 - |Rhs(p)|].state) != 30
  {
    hide ActionFor, Edge, Accessing, Goto, Rhs;
    var t := Top(stack);
    var n := |stack|;
    ReducesWhatItCompletes(t, k);
    LinkedSources(stack, n - 1);
    var t1 := stack[n - 2].state;
    if t in {2, 3, 4, 6, 7, 8, 10} {
      Handle1(t1, t);
    } else {
      LinkedSources(stack, n - 2);
      SourcesBelow(t, t1);
      var t2 := stack[n - 3].state;
      if t == 17 {
        Handle2(t2, t1, t);
      } else {
        LinkedSources(stack, n - 3);
        SourcesBelow2(t, t1, t2);
        var t3 := stack[n - 4].state;
        if t != 29 {
          Handle3(t3, t2, t1, t);
        } else {
          LinkedSources(stack, n - 4);
          Handle4(stack[n - 5].state, t3, t2, t1, t);
        }
      }
    }
  }

  /** Below a state that completes two symbols or more lies no bottom of the stack. */
  lemma SourcesBelow(t: nat, t1: nat)
    requires Completes(t) != 0 && t !in {2, 3, 4, 6, 7, 8, 10} && t1 in Sources(t)
    ensures t1 != 0
  {
  }

  lemma SourcesBelow2(t: nat, t1: nat, t2: nat)
    requires Completes(t) != 0 && t !in {2, 3, 4, 6, 7, 8, 10, 17} && t1 in Sources(t) && t2 in Sources(t1)
    ensures t2 != 0 && (t == 29 ==> forall t3 :: t3 in Sources(t2) ==> t3 != 0)
  {
  }

  lemma LinkedSources<V>(stack: seq<Rec<V>>, i: nat)
    requires Linked(stack) && i < |stack|
    ensures stack[i].state != 0 ==> i > 0 && 1 <= stack[i].state <= 29 && stack[i - 1].state in Sources(stack[i].state)
    ensures stack[i].state == 0 ==> i == 0
  {
    if i > 0 {
      assert Edge(stack[i - 1].state, stack[i].state);
      EdgeSources(stack[i - 1].state, stack[i].state);
    }
  }

  // ---- One turn of the loop ----

  datatype Status = Running | Accepted | Failed

  /** `stack`, `curtoken.x`, the index of the token in `tokentype`, and the two flags. */
  datatype Config<+V> = Config(stack: seq<Rec<V>>, cur: Payload<V>, at: nat, formula: bool, status: Status)

  function Look<V>(toks: seq<Token<V>>, at: nat): Symbol {
    if at < |toks| then Kind(toks[at]) else EOLN
  }

  /** `nexttoken`: reads the token at `at`; only numbers, cells and functions store into `curtoken`. */
  function Read<V>(toks: seq<Token<V>>, c: Config<V>, at: nat): Config<V> {
    if at < |toks| && Carried(toks[at]).Some?
    then c.(at := at, cur := Carried(toks[at]).value, formula := c.formula || toks[at].Cell?)
    else c.(at := at)
  }

  /** `push` */
  function Push<V>(c: Config<V>, r: Rec<V>): Config<V> {
    if |c.stack| == PARSER_STACK_SIZE then c.(status := Failed) else c.(stack := c.stack + [r])
  }

  predicate AllFit<V>(syms: seq<Symbol>, xs: seq<Payload<V>>) {
    |xs| == |syms| && forall i {:trigger xs[i]} :: 0 <= i < |xs| ==> PayloadFits(syms[i], xs[i])
  }

  /** Sum of `cellvalue` along a row, columns `from..to`, starting from `acc`. */
  function SumRow<V>(o: Arith<V>, acc: V, row: int, from: int, to: int): V
    decreases to - from
  {
    if from > to then acc else SumRow(o, o.add(acc, o.cell(from, row)), row, from + 1, to)
  }

  /** Sum of `cellvalue` down a column, rows `from..to`. */
  function SumCol<V>(o: Arith<V>, acc: V, col: int, from: int, to: int): V
    decreases to - from
  {
    if from > to then acc else SumCol(o, o.add(acc, o.cell(col, from)), col, from + 1, to)
  }

  /** Reduction 11: the counting loops over a row or a column. */
  function RangeSum<V>(o: Arith<V>, r1: int, c1: int, r2: int, c2: int): V {
    if r1 == r2 then SumRow(o, o.zero, r2, c1, c2) else SumCol(o, o.zero, c2, r1, r2)
  }

  /** The value production `p` computes from the payloads of its right side, left to right,
      and whether it raises the error flag. */
  function Reduced<V>(o: Arith<V>, p: nat, xs: seq<Payload<V>>): (Payload<V>, bool)
    requires Production(p) && AllFit(Rhs(p), xs)
  {
    match p
    case 1 => (Value(o.add(xs[2].v, xs[0].v)), false)
    case 2 => (Value(o.sub(xs[0].v, xs[2].v)), false)
    case 4 => (Value(o.mul(xs[2].v, xs[0].v)), false)
    case 5 => (Value(if o.isZero(xs[2].v) then o.huge else o.quot(xs[0].v, xs[2].v)), false)
    case 7 => (Value(o.pow(xs[0].v, xs[2].v)), false)
    case 9 => (Value(o.neg(xs[1].v)), false)
    case 11 =>
      if RangeOk(xs[0].row, xs[0].col, xs[2].row, xs[2].col)
      then (Value(RangeSum(o, xs[0].row, xs[0].col, xs[2].row, xs[2].col)), false)
      else (Value(o.zero), true)
    case 13 => (Value(o.cell(xs[0].col, xs[0].row)), false)
    case 14 => (xs[1], false)
    case 16 => (Value(o.apply(xs[0].name, xs[2].v)), false)
    case _ => (xs[0], false)
  }

  function Payloads<V>(stack: seq<Rec<V>>, n: nat): (r: seq<Payload<V>>)
    requires n <= |stack|
    ensures |r| == n && forall i :: 0 <= i < n ==> r[i] == stack[|stack| - n + i].x
  {
    seq(n, i requires 0 <= i < n => stack[|stack| - n + i].x)
  }

  lemma HandleFits<V>(stack: seq<Rec<V>>, k: Symbol)
    requires Linked(stack) && ActionFor(Top(stack), k).Reduce?
    ensures var p := ActionFor(Top(stack), k).prod;
      && Production(p) && |Rhs(p)| < |stack| && AllFit(Rhs(p), Payloads(stack, |Rhs(p)|))
  {
    hide ActionFor, Edge, Accessing, Goto, Rhs, PayloadFits;
    HandleOnTop(stack, k);
    var p := ActionFor(Top(stack), k).prod;
    forall i | 0 <= i < |Rhs(p)| ensures PayloadFits(Rhs(p)[i], Payloads(stack, |Rhs(p)|)[i]) {
      assert TopSymbols(stack, |Rhs(p)|)[i] == Rhs(p)[i];
    }
  }

  /** `shift` */
  function ShiftTo<V>(toks: seq<Token<V>>, c: Config<V>, t: nat): Config<V> {
    Read(toks, Push(c, Rec(t, c.cur)), c.at + 1)
  }

  /** `reduce` */
  function ReduceBy<V>(o: Arith<V>, c: Config<V>, k: Symbol): Config<V>
    requires Linked(c.stack) && ActionFor(Top(c.stack), k).Reduce?
  {
    HandleFits(c.stack, k);
    var p := ActionFor(Top(c.stack), k).prod;
    var base := c.stack[..|c.stack| - |Rhs(p)|];
    var (x, err) := Reduced(o, p, Payloads(c.stack, |Rhs(p)|));
    Push(c.(stack := base, cur := x, status := if err then Failed else c.status), Rec(Goto(p, Top(base)), x))
  }

  function Step<V>(o: Arith<V>, toks: seq<Token<V>>, c: Config<V>): Config<V>
    requires Linked(c.stack)
  {
    var k := Look(toks, c.at);
    match ActionFor(Top(c.stack), k)
    case Shift(t) => ShiftTo(toks, c, t)
    case Reduce(_) => ReduceBy(o, c, k)
    case Accept => c.(status := Accepted)
    case Error => c.(status := Failed)
  }

  function Start<V>(o: Arith<V>, toks: seq<Token<V>>): Config<V> {
    Read(toks, Config([Rec(0, Value(o.zero))], Value(o.zero), 0, false, Running), 0)
  }
}
