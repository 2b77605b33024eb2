/** Precedence climbing: the tree the parser builds over a row of operands and operators is
    the only one whose shape agrees with the operators' binding powers. */
module Pratt {
  import opened Ast
  import opened Grammar
  import opened Spines
  import Depths
  import T = Tokens

  /** A tree over operands that shows which operators came from the row itself. */
  datatype Tree = Leaf(e: Expr) | Node(op: T.Token, l: Tree, r: Tree)

  datatype Item = Operand(e: Expr) | Operator(op: T.Token)

  function ToExpr(t: Tree): Expr
    requires Ordered(t)
  {
    match t
    case Leaf(e) => e
    case Node(op, l, r) => Join(T.InfixOf(op), ToExpr(l), ToExpr(r))
  }

  /** Left to right, what the tree was made of. */
  function InOrder(t: Tree): seq<Item> {
    match t
    case Leaf(e) => [Operand(e)]
    case Node(op, l, r) => InOrder(l) + [Operator(op)] + InOrder(r)
  }

  predicate AtLeast(t: Tree, min: nat) {
    t.Node? ==> T.BinPrec(t.op) >= min
  }

  /** A left child binds at least as tightly as its parent, a right child more tightly. */
  predicate Ordered(t: Tree) {
    t.Node? ==>
      T.BinPrec(t.op) > 0 && AtLeast(t.l, T.BinPrec(t.op)) && AtLeast(t.r, T.BinPrec(t.op) + 1) && Ordered(t.l) && Ordered(t.r)
  }

  // ---- there is only one such tree ---------------------------------------------------------------

  /** Every operator of an ordered tree binds at least as tightly as its root. */
  lemma {:induction false} RootIsLoosest(t: Tree, min: nat, i: nat)
    requires Ordered(t) && AtLeast(t, min) && i < |InOrder(t)| && InOrder(t)[i].Operator?
    ensures T.BinPrec(InOrder(t)[i].op) >= min
  {
    if t.Node? {
      var k := |InOrder(t.l)|;
      if i < k {
        RootIsLoosest(t.l, T.BinPrec(t.op), i);
      } else if i > k {
        RootIsLoosest(t.r, T.BinPrec(t.op) + 1, i - k - 1);
      }
    }
  }

  /** The roots of two ordered trees over one row cannot be apart. */
  lemma RootsMeet(t: Tree, t': Tree)
    requires Ordered(t) && Ordered(t') && t.Node? && t'.Node? && InOrder(t) == InOrder(t')
    ensures |InOrder(t.l)| >= |InOrder(t'.l)|
  {
    hide *;
    if |InOrder(t.l)| < |InOrder(t'.l)| {
      EarlierBindsTighter(t, t');
      LaterBindsTighter(t, t');
    }
  }

  lemma NodeParts(t: Tree)
    requires t.Node?
    ensures var k := |InOrder(t.l)|;
            |InOrder(t)| == k + 1 + |InOrder(t.r)| && InOrder(t)[..k] == InOrder(t.l) &&
            InOrder(t)[k] == Operator(t.op) && InOrder(t)[k + 1..] == InOrder(t.r)
    ensures Ordered(t) ==> Ordered(t.l) && Ordered(t.r) && AtLeast(t.l, T.BinPrec(t.op)) && AtLeast(t.r, T.BinPrec(t.op) + 1)
  {
  }

  lemma EarlierBindsTighter(t: Tree, t': Tree)
    requires Ordered(t') && t.Node? && t'.Node? && InOrder(t) == InOrder(t') && |InOrder(t.l)| < |InOrder(t'.l)|
    ensures T.BinPrec(t.op) >= T.BinPrec(t'.op)
  {
    hide *;
    var i, j := |InOrder(t.l)|, |InOrder(t'.l)|;
    NodeParts(t);
    NodeParts(t');
    assert InOrder(t')[..j][i] == InOrder(t')[i];
    RootIsLoosest(t'.l, T.BinPrec(t'.op), i);
  }

  lemma LaterBindsTighter(t: Tree, t': Tree)
    requires Ordered(t) && t.Node? && t'.Node? && InOrder(t) == InOrder(t') && |InOrder(t.l)| < |InOrder(t'.l)|
    ensures T.BinPrec(t'.op) > T.BinPrec(t.op)
  {
    hide *;
    var i, j := |InOrder(t.l)|, |InOrder(t'.l)|;
    NodeParts(t);
    NodeParts(t');
    assert InOrder(t)[i + 1..][j - i - 1] == InOrder(t)[j];
    RootIsLoosest(t.r, T.BinPrec(t.op) + 1, j - i - 1);
  }

  lemma {:induction false} OneLeaf(t: Tree)
    ensures |InOrder(t)| >= 1 && (t.Node? ==> |InOrder(t)| >= 3)
  {
    if t.Node? {
      OneLeaf(t.l);
      OneLeaf(t.r);
    }
  }

  lemma {:induction false} Unique(t: Tree, t': Tree)
    requires Ordered(t) && Ordered(t') && InOrder(t) == InOrder(t')
    ensures t == t'
  {
    OneLeaf(t);
    OneLeaf(t');
    if t.Node? && t'.Node? {
      RootsMeet(t, t');
      RootsMeet(t', t);
      var i := |InOrder(t.l)|;
      assert InOrder(t.l) == InOrder(t)[..i] == InOrder(t'.l);
      assert InOrder(t.r) == InOrder(t)[i + 1..] == InOrder(t'.r);
      assert InOrder(t)[i] == Operator(t.op) && InOrder(t')[i] == Operator(t'.op);
      Unique(t.l, t'.l);
      Unique(t.r, t'.r);
    } else if t.Leaf? && t'.Leaf? {
      assert InOrder(t)[0] == Operand(t.e) && InOrder(t')[0] == Operand(t'.e);
    }
  }

  // ---- the parser finds it --------------------------------------------------------------------------

  ghost predicate IsOperand(toks: Toks, p: nat, k: nat, e: Expr, q: nat)
    requires p <= |toks|
  {
    UnaryOf(toks, p, k) == Ok(e, q)
  }

  /** The tree reads the tokens from `p` to `q` in order: operands the parser reads, and the
      operators between them. */
  ghost predicate Covers(toks: Toks, t: Tree, p: nat, q: nat)
    requires p <= |toks| && q <= |toks|
  {
    match t
    case Leaf(e) => exists k :: IsOperand(toks, p, k, e, q)
    case Node(op, l, r) => exists m: nat {:trigger Covers(toks, l, p, m)} :: m < |toks| && toks[m] == op && Covers(toks, l, p, m) && Covers(toks, r, m + 1, q)
  }

  /** Whatever the parser accepts, it read as an ordered tree whose root binds at least as
      tightly as asked, and it stopped before an operator that binds less. */
  ghost predicate ReadAs(toks: Toks, r: Result<Expr>, t: Tree, p: nat, min: nat)
    requires p <= |toks|
  {
    r.Ok? && r.next <= |toks| && Ordered(t) && AtLeast(t, min) && ToExpr(t) == r.v && Covers(toks, t, p, r.next) &&
    (T.BinPrec(At(toks, r.next)) == 0 || T.BinPrec(At(toks, r.next)) < min)
  }

  lemma {:induction false} ClimbingOrders(toks: Toks, p: nat, d: nat, min: nat) returns (t: Tree)
    requires p <= |toks| && ExprOf(toks, p, d, min).Ok?
    ensures ReadAs(toks, ExprOf(toks, p, d, min), t, p, min)
    decreases |toks| - p, 1
  {
    hide UnaryOf, Climb, ToExpr;
    var l := UnaryOf(toks, p, d + 1);
    assert l.Ok? && ExprOf(toks, p, d, min) == Climb(toks, l.next, d + 1, min, l.v);
    assert IsOperand(toks, p, d + 1, l.v, l.next);
    LeafReads(l.v);
    t := LoopOrders(toks, p, l.next, d + 1, min, Leaf(l.v));
  }

  lemma LeafReads(e: Expr)
    ensures ToExpr(Leaf(e)) == e
  {
  }

  lemma {:induction false} LoopOrders(toks: Toks, start: nat, p: nat, d: nat, min: nat, left: Tree) returns (t: Tree)
    requires start < p <= |toks| && Ordered(left) && AtLeast(left, min) && Covers(toks, left, start, p) && ShapedE(ToExpr(left))
    requires left.Node? ==> T.BinPrec(At(toks, p)) <= T.BinPrec(left.op)
    requires Climb(toks, p, d, min, ToExpr(left)).Ok?
    ensures ReadAs(toks, Climb(toks, p, d, min, ToExpr(left)), t, start, min)
    decreases |toks| - p, 2
  {
    hide ExprOf, ToExpr, ReadAs, ShapedE;
    var k := T.BinPrec(At(toks, p));
    if k == 0 || k < min {
      t := left;
      Stopped(toks, start, p, d, min, left);
    } else {
      var r := ClimbingOrders(toks, p + 1, d, k + 1);
      var e := ExprOf(toks, p + 1, d, k + 1);
      var next := Joined(toks, start, p, k, left, e, r);
      JoinIsShaped(T.InfixOf(At(toks, p)), ToExpr(left), e.v);
      t := LoopOrders(toks, start, e.next, d, min, next);
    }
  }

  lemma Stopped(toks: Toks, start: nat, p: nat, d: nat, min: nat, left: Tree)
    requires start < p <= |toks| && Ordered(left) && AtLeast(left, min) && Covers(toks, left, start, p) && ShapedE(ToExpr(left))
    requires T.BinPrec(At(toks, p)) == 0 || T.BinPrec(At(toks, p)) < min
    ensures ReadAs(toks, Climb(toks, p, d, min, ToExpr(left)), left, start, min)
  {
    hide ExprOf, ToExpr, Covers, ShapedE;
  }

  /** One operator more keeps the shape. */
  lemma Joined(toks: Toks, start: nat, p: nat, k: nat, left: Tree, e: Result<Expr>, r: Tree) returns (next: Tree)
    requires start < p < |toks| && Ordered(left) && Covers(toks, left, start, p)
    requires left.Node? ==> T.BinPrec(At(toks, p)) <= T.BinPrec(left.op)
    requires k == T.BinPrec(At(toks, p)) && k > 0 && ReadAs(toks, e, r, p + 1, k + 1)
    ensures next == Node(At(toks, p), left, r) && Ordered(next) && Covers(toks, next, start, e.next)
    ensures ToExpr(next) == Join(T.InfixOf(At(toks, p)), ToExpr(left), e.v)
    ensures T.BinPrec(At(toks, e.next)) <= k && T.BinPrec(next.op) == k
  {
    next := Node(At(toks, p), left, r);
  }

  // ---- rows of one-token operands always parse --------------------------------------------------------

  /** A token that is an operand by itself. */
  predicate Atom(t: T.Token) {
    t.Int? || t.Float? || t.Str? || t.Ident? || t.KwTrue? || t.KwFalse? || t.KwNil?
  }

  function LeafOf(t: T.Token): Expr
    requires Atom(t)
  {
    match t
    case Int(i) => IntLit(i)
    case Float(d) => FloatLit(d)
    case Str(raw) => StrLit(T.Unescape(raw))
    case Ident(name) => Ident(name)
    case KwTrue => BoolLit(true)
    case KwFalse => BoolLit(false)
    case KwNil => NilLit
  }

  /** operand operator operand ... operand, from `p` up to `q`, and then nothing that carries on. */
  predicate Row(toks: Toks, p: nat, q: nat)
    decreases q - p
  {
    p < q <= |toks| && Atom(At(toks, p)) &&
    if p + 1 == q then Stops(At(toks, q)) else T.BinPrec(At(toks, p + 1)) > 0 && p + 2 < q && Row(toks, p + 2, q)
  }

  function ItemsOf(toks: Toks, p: nat, q: nat): seq<Item>
    requires Row(toks, p, q)
    decreases q - p
  {
    if p + 1 == q then [Operand(LeafOf(At(toks, p)))]
    else [Operand(LeafOf(At(toks, p))), Operator(At(toks, p + 1))] + ItemsOf(toks, p + 2, q)
  }

  lemma AtomReads(toks: Toks, p: nat, d: nat)
    requires p + 1 <= |toks| && Atom(At(toks, p)) && !Suffix(At(toks, p + 1))
    ensures UnaryOf(toks, p, d) == if d < MAX_DEPTH then Ok(LeafOf(At(toks, p)), p + 1) else Fail
  {
  }

  /** The end of the row, or an operator in it that binds less than `min`. */
  predicate Breaks(toks: Toks, p: nat, q: nat, min: nat) {
    p == q || (p + 1 < q <= |toks| && 0 < T.BinPrec(At(toks, p)) < min && Row(toks, p + 1, q))
  }

  /** At most eleven binding powers nest, so thirteen levels do for any row. */
  lemma {:induction false} RowParses(toks: Toks, p: nat, d: nat, min: nat, q: nat)
    requires Row(toks, p, q) && 1 <= min <= 11 && d + 13 - min <= MAX_DEPTH
    ensures var r := ExprOf(toks, p, d, min); r.Ok? && p < r.next <= q && Breaks(toks, r.next, q, min)
    decreases q - p, 1
  {
    hide UnaryOf, Climb, LeafOf;
    RowNext(toks, p, q);
    AtomReads(toks, p, d + 1);
    LeafShaped(At(toks, p));
    RowClimbs(toks, p + 1, d + 1, min, LeafOf(At(toks, p)), q);
  }

  lemma LeafShaped(t: T.Token)
    requires Atom(t)
    ensures ShapedE(LeafOf(t))
  {
  }

  lemma RowNext(toks: Toks, p: nat, q: nat)
    requires Row(toks, p, q)
    ensures p + 1 <= q <= |toks| && !Suffix(At(toks, p + 1)) && Atom(At(toks, p))
    ensures p + 1 == q || (T.BinPrec(At(toks, p + 1)) > 0 && Row(toks, p + 2, q))
    ensures p + 1 == q ==> Stops(At(toks, q))
  {
  }

  lemma {:induction false} RowClimbs(toks: Toks, p: nat, d: nat, min: nat, left: Expr, q: nat)
    requires p <= q <= |toks| && 1 <= min <= 11 && d + 12 - min <= MAX_DEPTH && ShapedE(left)
    requires if p == q then Stops(At(toks, q)) else T.BinPrec(At(toks, p)) > 0 && Row(toks, p + 1, q)
    ensures var r := Climb(toks, p, d, min, left); r.Ok? && p <= r.next <= q && Breaks(toks, r.next, q, min)
    decreases q - p, 2
  {
    hide ExprOf, Row, Stops, ShapedE, Join;
    var k := T.BinPrec(At(toks, p));
    if p == q {
      StopsHere(At(toks, q));
    } else if k >= min {
      RowParses(toks, p + 1, d, k + 1, q);
      var r := ExprOf(toks, p + 1, d, k + 1);
      var next := Join(T.InfixOf(At(toks, p)), left, r.v);
      JoinIsShaped(T.InfixOf(At(toks, p)), left, r.v);
      RowStops(toks, p + 1, q);
      RowClimbs(toks, r.next, d, min, next, q);
    } else {
      RowNext(toks, p + 1, q);
    }
  }

  lemma StopsHere(t: T.Token)
    requires Stops(t)
    ensures T.BinPrec(t) == 0
  {
  }

  lemma JoinIsShaped(f: T.Infix, l: Expr, r: Expr)
    requires !f.NotInfix? && ShapedE(l) && ShapedE(r)
    ensures ShapedE(Join(f, l, r))
  {
  }

  lemma {:induction false} RowStops(toks: Toks, p: nat, q: nat)
    requires Row(toks, p, q)
    ensures q <= |toks| && Stops(At(toks, q))
    decreases q - p
  {
    if p + 1 != q { RowStops(toks, p + 2, q); }
  }

  /** The tree's items are the row's up to `m`, and a row is left after the operator there. */
  predicate TakesFrom(toks: Toks, t: Tree, p: nat, m: nat, q: nat)
    requires Row(toks, p, q)
  {
    p < m <= q <= |toks| &&
    if m == q then InOrder(t) == ItemsOf(toks, p, q)
    else T.BinPrec(At(toks, m)) > 0 && Row(toks, m + 1, q) && InOrder(t) + [Operator(At(toks, m))] + ItemsOf(toks, m + 1, q) == ItemsOf(toks, p, q)
  }

  /** A tree that covers a row is made of the row's items. */
  lemma {:induction false} CoversRow(toks: Toks, t: Tree, p: nat, m: nat, q: nat)
    requires Row(toks, p, q) && m <= q <= |toks| && Covers(toks, t, p, m)
    ensures TakesFrom(toks, t, p, m, q)
    decreases t
  {
    hide Covers, TakesFrom, Row, ItemsOf, InOrder, UnaryOf;
    if t.Leaf? {
      LeafTakes(toks, t, p, m, q);
    } else {
      RowNext(toks, p, q);
      var i := CoversNode(toks, t, p, m);
      CoversRow(toks, t.l, p, i, q);
      var rest := AfterOperator(toks, t.l, p, i, q);
      CoversRow(toks, t.r, rest, m, q);
      NodeTakes(toks, t, p, i, m, q);
    }
  }

  lemma AfterOperator(toks: Toks, l: Tree, p: nat, i: nat, q: nat) returns (rest: nat)
    requires Row(toks, p, q) && TakesFrom(toks, l, p, i, q) && i < q
    ensures rest == i + 1 && rest <= |toks| && Row(toks, rest, q)
  {
    rest := i + 1;
  }

  lemma CoversNode(toks: Toks, t: Tree, p: nat, m: nat) returns (i: nat)
    requires p <= |toks| && m <= |toks| && t.Node? && Covers(toks, t, p, m)
    ensures i < m && i < |toks| && toks[i] == t.op && Covers(toks, t.l, p, i) && Covers(toks, t.r, i + 1, m)
  {
    i :| i < |toks| && toks[i] == t.op && Covers(toks, t.l, p, i) && Covers(toks, t.r, i + 1, m);
    CoversMoves(toks, t.r, i + 1, m);
  }

  lemma LeafTakes(toks: Toks, t: Tree, p: nat, m: nat, q: nat)
    requires Row(toks, p, q) && m <= q <= |toks| && Covers(toks, t, p, m) && t.Leaf?
    ensures TakesFrom(toks, t, p, m, q)
  {
    hide UnaryOf, InOrder, ItemsOf, Row;
    var k :| IsOperand(toks, p, k, t.e, m);
    RowNext(toks, p, q);
    RowItems(toks, p, q);
    AtomReads(toks, p, k);
    LeafItems(t.e);
  }

  lemma NodeTakes(toks: Toks, t: Tree, p: nat, i: nat, m: nat, q: nat)
    requires Row(toks, p, q) && t.Node? && i < q && TakesFrom(toks, t.l, p, i, q) && At(toks, i) == t.op
    requires Row(toks, i + 1, q) && TakesFrom(toks, t.r, i + 1, m, q)
    ensures TakesFrom(toks, t, p, m, q)
  {
    hide Row, InOrder, ItemsOf;
    RowOfNode(toks, t.op, t.l, t.r, p, i, m, q);
  }

  lemma RowOfNode(toks: Toks, op: T.Token, l: Tree, r: Tree, p: nat, i: nat, m: nat, q: nat)
    requires Row(toks, p, q) && i + 1 < m <= q && Row(toks, i + 1, q) && At(toks, i) == op
    requires InOrder(l) + [Operator(op)] + ItemsOf(toks, i + 1, q) == ItemsOf(toks, p, q)
    requires m == q ==> InOrder(r) == ItemsOf(toks, i + 1, q)
    requires m < q ==> Row(toks, m + 1, q) && InOrder(r) + [Operator(At(toks, m))] + ItemsOf(toks, m + 1, q) == ItemsOf(toks, i + 1, q)
    ensures m == q ==> InOrder(Node(op, l, r)) == ItemsOf(toks, p, q)
    ensures m < q ==> InOrder(Node(op, l, r)) + [Operator(At(toks, m))] + ItemsOf(toks, m + 1, q) == ItemsOf(toks, p, q)
  {
    hide Row, ItemsOf;
    NodeItems(op, l, r);
    if m < q {
      var a, x, b, y, c := InOrder(l), [Operator(op)], InOrder(r), [Operator(At(toks, m))], ItemsOf(toks, m + 1, q);
      assert a + x + b + y + c == a + x + (b + y + c);
    }
  }

  lemma NodeItems(op: T.Token, l: Tree, r: Tree)
    ensures InOrder(Node(op, l, r)) == InOrder(l) + [Operator(op)] + InOrder(r)
  {
  }

  lemma RowItems(toks: Toks, p: nat, q: nat)
    requires Row(toks, p, q)
    ensures p + 1 == q ==> ItemsOf(toks, p, q) == [Operand(LeafOf(At(toks, p)))]
    ensures p + 1 < q ==> Row(toks, p + 2, q)
    ensures p + 1 < q ==>
              ItemsOf(toks, p, q) == [Operand(LeafOf(At(toks, p)))] + [Operator(At(toks, p + 1))] + ItemsOf(toks, p + 2, q)
  {
  }

  lemma LeafItems(e: Expr)
    ensures InOrder(Leaf(e)) == [Operand(e)]
  {
  }

  lemma {:induction false} CoversMoves(toks: Toks, t: Tree, p: nat, q: nat)
    requires p <= |toks| && q <= |toks| && Covers(toks, t, p, q)
    ensures p < q
    decreases t
  {
    hide UnaryOf;
    match t
    case Leaf(e) =>
      var k :| IsOperand(toks, p, k, e, q);
      OperandMoves(toks, p, k);
    case Node(op, l, r) =>
      var m: nat :| m < |toks| && toks[m] == op && Covers(toks, l, p, m) && Covers(toks, r, m + 1, q);
      CoversMoves(toks, l, p, m);
      CoversMoves(toks, r, m + 1, q);
  }

  lemma OperandMoves(toks: Toks, p: nat, k: nat)
    requires p <= |toks|
    ensures UnaryOf(toks, p, k).Ok? ==> p < UnaryOf(toks, p, k).next
  {
    hide UnaryOf;
  }

  // ---- whatever the parser accepts, there was no other way to read it ----------------------------------

  /** The items are what the tokens from `p` to `q` spell out, one operand after another. */
  ghost predicate Spells(toks: Toks, items: seq<Item>, p: nat, q: nat)
    requires p <= |toks| && q <= |toks|
    decreases |items|
  {
    |items| > 0 && items[0].Operand? &&
    if |items| == 1 then Reads(toks, p, items[0].e, q)
    else items[1].Operator? && exists m: nat {:trigger Reads(toks, p, items[0].e, m)} ::
      m < |toks| && toks[m] == items[1].op && Reads(toks, p, items[0].e, m) && Spells(toks, items[2..], m + 1, q)
  }

  ghost predicate Reads(toks: Toks, p: nat, e: Expr, q: nat)
    requires p <= |toks|
  {
    exists k :: IsOperand(toks, p, k, e, q)
  }

  lemma {:induction false} SpellsMoves(toks: Toks, items: seq<Item>, p: nat, q: nat)
    requires p <= |toks| && q <= |toks| && Spells(toks, items, p, q)
    ensures p < q
    decreases |items|
  {
    hide UnaryOf;
    if |items| == 1 {
      ReadsMoves(toks, p, items[0].e, q);
    } else {
      var m: nat :| m < |toks| && Reads(toks, p, items[0].e, m) && Spells(toks, items[2..], m + 1, q);
      ReadsMoves(toks, p, items[0].e, m);
      SpellsMoves(toks, items[2..], m + 1, q);
    }
  }

  lemma ReadsMoves(toks: Toks, p: nat, e: Expr, q: nat)
    requires p <= |toks| && Reads(toks, p, e, q)
    ensures p < q
  {
    hide UnaryOf;
    var k :| IsOperand(toks, p, k, e, q);
    OperandMoves(toks, p, k);
  }

  lemma ReadsOnce(toks: Toks, p: nat, e: Expr, q: nat, e': Expr, q': nat)
    requires p <= |toks| && Reads(toks, p, e, q) && Reads(toks, p, e', q')
    ensures e == e' && q == q'
  {
    hide UnaryOf;
    var k :| IsOperand(toks, p, k, e, q);
    var k' :| IsOperand(toks, p, k', e', q');
    Depths.SameOperand(toks, p, k, k');
  }

  /** Tokens spell one row. */
  lemma {:induction false} SpellsOnce(toks: Toks, a: seq<Item>, b: seq<Item>, p: nat, q: nat)
    requires p <= |toks| && q <= |toks| && Spells(toks, a, p, q) && Spells(toks, b, p, q)
    ensures a == b
    decreases |a|
  {
    hide Reads;
    var i := FirstOf(toks, a, p, q);
    var j := FirstOf(toks, b, p, q);
    ReadsOnce(toks, p, a[0].e, i, b[0].e, j);
    if |a| > 1 && |b| > 1 {
      SpellsOnce(toks, a[2..], b[2..], i + 1, q);
      assert a == a[..2] + a[2..] && b == b[..2] + b[2..];
    }
  }

  /** Where the first operand ends: at the end, or at the operator that follows it. */
  lemma FirstOf(toks: Toks, items: seq<Item>, p: nat, q: nat) returns (m: nat)
    requires p <= |toks| && q <= |toks| && Spells(toks, items, p, q)
    ensures |items| > 0 && items[0].Operand? && Reads(toks, p, items[0].e, m)
    ensures if |items| == 1 then m == q
            else m < q && m < |toks| && items[1] == Operator(toks[m]) && Spells(toks, items[2..], m + 1, q)
  {
    hide Reads;
    if |items| == 1 {
      m := q;
    } else {
      m :| m < |toks| && toks[m] == items[1].op && Reads(toks, p, items[0].e, m) && Spells(toks, items[2..], m + 1, q);
      SpellsMoves(toks, items[2..], m + 1, q);
    }
  }

  lemma {:induction false} SpellsJoin(toks: Toks, a: seq<Item>, b: seq<Item>, p: nat, m: nat, q: nat)
    requires p <= |toks| && m < |toks| && q <= |toks| && Spells(toks, a, p, m) && Spells(toks, b, m + 1, q)
    ensures Spells(toks, a + [Operator(toks[m])] + b, p, q)
    decreases |a|
  {
    hide Reads;
    var items := a + [Operator(toks[m])] + b;
    var i := FirstOf(toks, a, p, m);
    if |a| == 1 {
      assert items[2..] == b && items[1].op == toks[m];
    } else {
      SpellsJoin(toks, a[2..], b, i + 1, m, q);
      assert items[2..] == a[2..] + [Operator(toks[m])] + b && items[1].op == toks[i];
    }
  }

  lemma {:induction false} CoversSpells(toks: Toks, t: Tree, p: nat, q: nat)
    requires p <= |toks| && q <= |toks| && Covers(toks, t, p, q)
    ensures Spells(toks, InOrder(t), p, q)
    decreases t
  {
    hide UnaryOf, Spells;
    match t
    case Leaf(e) => LeafSpells(toks, e, p, q);
    case Node(op, l, r) =>
      var m: nat :| m < |toks| && toks[m] == op && Covers(toks, l, p, m) && Covers(toks, r, m + 1, q);
      CoversSpells(toks, l, p, m);
      CoversSpells(toks, r, m + 1, q);
      SpellsJoin(toks, InOrder(l), InOrder(r), p, m, q);
  }

  lemma LeafSpells(toks: Toks, e: Expr, p: nat, q: nat)
    requires p <= |toks| && q <= |toks| && Covers(toks, Leaf(e), p, q)
    ensures Spells(toks, InOrder(Leaf(e)), p, q)
  {
    hide UnaryOf;
  }

  /** Whatever expression the parser accepts, with operands of any kind, it read as the only
      tree over those tokens that respects the binding powers. */
  lemma OnlyTree(toks: Toks, p: nat, d: nat) returns (t: Tree)
    requires p <= |toks| && ExprOf(toks, p, d, 1).Ok?
    ensures var q := ExprOf(toks, p, d, 1).next;
            && q <= |toks| && Ordered(t) && Covers(toks, t, p, q) && ExprOf(toks, p, d, 1).v == ToExpr(t)
            && (forall t': Tree :: Ordered(t') && Covers(toks, t', p, q) ==> t' == t)
  {
    hide ExprOf, ToExpr, Covers, InOrder, Ordered;
    t := ClimbingOrders(toks, p, d, 1);
    var q := ExprOf(toks, p, d, 1).next;
    CoversSpells(toks, t, p, q);
    forall t': Tree | Ordered(t') && Covers(toks, t', p, q) ensures t' == t {
      CoversSpells(toks, t', p, q);
      SpellsOnce(toks, InOrder(t), InOrder(t'), p, q);
      Unique(t, t');
    }
  }

  /** Any row, however long, parses to the one ordered tree over its items. */
  lemma OneTree(toks: Toks, p: nat, d: nat, q: nat) returns (t: Tree)
    requires Row(toks, p, q) && d + 12 <= MAX_DEPTH
    ensures Ordered(t) && ExprOf(toks, p, d, 1) == Ok(ToExpr(t), q) && InOrder(t) == ItemsOf(toks, p, q)
    ensures forall t': Tree :: Ordered(t') && InOrder(t') == ItemsOf(toks, p, q) ==> t' == t
  {
    hide ExprOf, ToExpr, Row, ItemsOf, Covers;
    RowParses(toks, p, d, 1, q);
    t := ClimbingOrders(toks, p, d, 1);
    CoversRow(toks, t, p, q, q);
    forall t': Tree | Ordered(t') && InOrder(t') == ItemsOf(toks, p, q) ensures t' == t {
      Unique(t, t');
    }
  }
}
