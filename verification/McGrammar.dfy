/** The expression grammar of MicroCalc, as the reductions of its parser number it, and what
    an expression is worth. Numbers are abstract: the arithmetic is a parameter. */
module McGrammar {
  import opened Outcomes

  datatype Token<+V> =
    | Plus | Minus | Times | Divide | Exp | Colon | OParen | CParen
    | Num(v: V) | Cell(row: int, col: int) | Func(name: string) | Bad

  /** Grammar symbols: nonterminals, token kinds, and the end of the line. */
  datatype Symbol =
    | Expr | Term | Factor | Unary | Area | Atom
    | PLUS | MINUS | TIMES | DIVIDE | EXP | COLON | OPAREN | CPAREN | NUM | CELL | FUNC | EOLN | BAD

  function Kind<V>(t: Token<V>): Symbol {
    match t
    case Plus => PLUS case Minus => MINUS case Times => TIMES case Divide => DIVIDE case Exp => EXP
    case Colon => COLON case OParen => OPAREN case CParen => CPAREN
    case Num(_) => NUM case Cell(_, _) => CELL case Func(_) => FUNC case Bad => BAD
  }

  predicate Nonterminal(x: Symbol) {
    x in {Expr, Term, Factor, Unary, Area, Atom}
  }

  /** Left side of production `p`. */
  function Lhs(p: nat): Symbol {
    if p <= 3 then Expr else if p <= 6 then Term else if p <= 8 then Factor
    else if p <= 10 then Unary else if p <= 12 then Area else Atom
  }

  /** Right side of production `p`. */
  function Rhs(p: nat): seq<Symbol> {
    match p
    case 1 => [Expr, PLUS, Term]
    case 2 => [Expr, MINUS, Term]
    case 3 => [Term]
    case 4 => [Term, TIMES, Factor]
    case 5 => [Term, DIVIDE, Factor]
    case 6 => [Factor]
    case 7 => [Unary, EXP, Factor]
    case 8 => [Unary]
    case 9 => [MINUS, Area]
    case 10 => [Area]
    case 11 => [CELL, COLON, CELL]
    case 12 => [Atom]
    case 13 => [CELL]
    case 14 => [OPAREN, Expr, CPAREN]
    case 15 => [NUM]
    case 16 => [FUNC, OPAREN, Expr, CPAREN]
    case _ => []
  }

  predicate Production(p: nat) {
    1 <= p <= 16
  }

  /** A derivation. */
  datatype Tree<+V> = Leaf(tok: Token<V>) | Node(prod: nat, kids: seq<Tree<V>>)

  function Root<V>(t: Tree<V>): Symbol {
    match t
    case Leaf(tok) => Kind(tok)
    case Node(p, _) => Lhs(p)
  }

  function Roots<V>(ts: seq<Tree<V>>): (r: seq<Symbol>)
    ensures |r| == |ts|
    ensures forall i :: 0 <= i < |ts| ==> r[i] == Root(ts[i])
  {
    seq(|ts|, i requires 0 <= i < |ts| => Root(ts[i]))
  }

  predicate Derives<V(!new)>(t: Tree<V>) {
    match t
    case Leaf(_) => true
    case Node(p, kids) => Production(p) && Roots(kids) == Rhs(p) && forall i :: 0 <= i < |kids| ==> Derives(kids[i])
  }

  /** The tokens a derivation spells. */
  function Yield<V>(t: Tree<V>): seq<Token<V>>
    decreases t, 0
  {
    match t
    case Leaf(tok) => [tok]
    case Node(_, kids) => Yields(kids)
  }

  function Yields<V>(ts: seq<Tree<V>>): seq<Token<V>>
    decreases ts, |ts|
  {
    if ts == [] then [] else Yields(ts[..|ts| - 1]) + Yield(ts[|ts| - 1])
  }

  // ---- Values ----

  /** The floating-point operations and the sheet, left abstract. */
  datatype Arith<!V> = Arith(
    zero: V, huge: V,
    add: (V, V) -> V, sub: (V, V) -> V, mul: (V, V) -> V, quot: (V, V) -> V, pow: (V, V) -> V, neg: V -> V,
    isZero: V -> bool,
    apply: (string, V) -> V,
    cell: (int, int) -> V)

  /** The union of a parser token: the member stored last. */
  datatype Payload<+V> = Value(v: V) | CellAt(row: int, col: int) | Name(name: string)

  /** What the lexer stores with a token; operators store nothing. */
  function Carried<V>(t: Token<V>): Option<Payload<V>> {
    match t
    case Num(v) => Some(Value(v))
    case Cell(r, c) => Some(CellAt(r, c))
    case Func(f) => Some(Name(f))
    case _ => None
  }

  /** A range must lie in one row or one column and not run backwards. */
  predicate RangeOk(r1: int, c1: int, r2: int, c2: int) {
    (r1 == r2 && c1 <= c2) || (c1 == c2 && r1 <= r2)
  }

  /** The cells of a range as columns and rows, from its first corner to its last. */
  function RangeCells(r1: int, c1: int, r2: int, c2: int): (cells: seq<(int, int)>)
    requires RangeOk(r1, c1, r2, c2)
    ensures |cells| == if r1 == r2 then c2 - c1 + 1 else r2 - r1 + 1
    ensures forall i :: 0 <= i < |cells| ==> cells[i] == if r1 == r2 then (c1 + i, r1) else (c1, r1 + i)
  {
    if r1 == r2 then seq(c2 - c1 + 1, i => (c1 + i, r1)) else seq(r2 - r1 + 1, i => (c1, r1 + i))
  }

  /** The values of the cells added to zero one after the other. */
  function Total<V>(o: Arith<V>, cells: seq<(int, int)>): V {
    if cells == [] then o.zero
    else
      var last := cells[|cells| - 1];
      o.add(Total(o, cells[..|cells| - 1]), o.cell(last.0, last.1))
  }

  /** The meaning of a derivation, `None` when a range in it is bad. Sums and products are taken
      right operand first, as the parser takes them. */
  function Sem<V>(o: Arith<V>, t: Tree<V>): Option<Payload<V>>
    decreases t, 0
  {
    match t
    case Leaf(tok) => Carried(tok)
    case Node(p, kids) =>
      if Roots(kids) != Rhs(p) then None
      else if p == 9 then Map1(o.neg, Sem(o, kids[1]))
      else if p == 14 then Sem(o, kids[1])
      else if p == 16 then CallNamed(o, Sem(o, kids[0]), Sem(o, kids[2]))
      else if p == 11 then SumArea(o, Sem(o, kids[0]), Sem(o, kids[2]))
      else if p == 13 then CellValue(o, Sem(o, kids[0]))
      else if p in {1, 2, 4, 5, 7} then Map2(Operator(o, p), Sem(o, kids[0]), Sem(o, kids[2]))
      else if Production(p) then Sem(o, kids[0])
      else None
  }

  function Operator<V>(o: Arith<V>, p: nat): (V, V) -> V {
    match p
    case 1 => (l, r) => o.add(r, l)
    case 2 => o.sub
    case 4 => (l, r) => o.mul(r, l)
    case 5 => (l, r) => if o.isZero(r) then o.huge else o.quot(l, r)
    case _ => o.pow
  }

  function Map1<V>(f: V -> V, x: Option<Payload<V>>): Option<Payload<V>> {
    if x.Some? && x.value.Value? then Some(Value(f(x.value.v))) else None
  }

  function Map2<V>(f: (V, V) -> V, x: Option<Payload<V>>, y: Option<Payload<V>>): Option<Payload<V>> {
    if x.Some? && x.value.Value? && y.Some? && y.value.Value? then Some(Value(f(x.value.v, y.value.v))) else None
  }

  function CallNamed<V>(o: Arith<V>, f: Option<Payload<V>>, x: Option<Payload<V>>): Option<Payload<V>> {
    if f.Some? && f.value.Name? && x.Some? && x.value.Value? then Some(Value(o.apply(f.value.name, x.value.v)))
    else None
  }

  function SumArea<V>(o: Arith<V>, x: Option<Payload<V>>, y: Option<Payload<V>>): Option<Payload<V>> {
    if x.Some? && x.value.CellAt? && y.Some? && y.value.CellAt? &&
      RangeOk(x.value.row, x.value.col, y.value.row, y.value.col)
    then Some(Value(Total(o, RangeCells(x.value.row, x.value.col, y.value.row, y.value.col)))) else None
  }

  function CellValue<V>(o: Arith<V>, x: Option<Payload<V>>): Option<Payload<V>> {
    if x.Some? && x.value.CellAt? then Some(Value(o.cell(x.value.col, x.value.row))) else None
  }

  // ---- Stack need ----

  /** How many stack entries parsing a derivation takes on top of those below it. */
  function Need<V>(t: Tree<V>): nat
    decreases t, 0
  {
    match t
    case Leaf(_) => 1
    case Node(_, kids) => NeedAll(kids)
  }

  function NeedAll<V>(ts: seq<Tree<V>>): nat
    decreases ts, |ts|
  {
    if ts == [] then 0
    else
      var init := NeedAll(ts[..|ts| - 1]);
      var last := |ts| - 1 + Need(ts[|ts| - 1]);
      if init > last then init else last
  }
}
