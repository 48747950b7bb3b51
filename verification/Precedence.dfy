/** Operator precedence in the parser: subexpr climbs the priorities and builds, for every
    sequence of tokens it accepts, the one tree that respects the priority table. */
module Precedence {
  import opened Common

  /** Operands that are one token stand for themselves; '-' is unary and binary. */
  datatype Token = Operand(id: nat) | LeftParen | RightParen | Not | Length | Binary(op: BinOpr) | Other(id: nat)

  datatype BinOpr = Add | Sub | Mul | Div | Mod | Pow | Concat | Ne | Eq | Lt | Le | Gt | Ge | And | Or

  datatype UnOpr = Negate | LogicNot | Len

  const UNARY_PRIORITY: nat := 8

  function LeftPriority(op: BinOpr): nat {
    match op
    case Add => 6 case Sub => 6
    case Mul => 7 case Div => 7 case Mod => 7
    case Pow => 10 case Concat => 5
    case And => 2 case Or => 1
    case _ => 3
  }

  function RightPriority(op: BinOpr): nat {
    match op
    case Add => 6 case Sub => 6
    case Mul => 7 case Div => 7 case Mod => 7
    case Pow => 9 case Concat => 4
    case And => 2 case Or => 1
    case _ => 3
  }

  /** getunopr. */
  function UnaryOf(t: Token): Option<UnOpr> {
    match t
    case Not => Some(LogicNot)
    case Length => Some(Len)
    case Binary(Sub) => Some(Negate)
    case _ => None
  }

  /** getbinopr. */
  function BinaryOf(ts: seq<Token>): Option<BinOpr> {
    if ts != [] && ts[0].Binary? then Some(ts[0].op) else None
  }

  datatype Tree = Leaf(id: nat) | Paren(t: Tree) | Unary(uop: UnOpr, t: Tree) | Bin(op: BinOpr, l: Tree, r: Tree)

  function UnaryToken(u: UnOpr): Token {
    match u case Negate => Binary(Sub) case LogicNot => Not case Len => Length
  }

  /** The tokens of an expression, from left to right. */
  function Yield(t: Tree): (ts: seq<Token>)
    ensures ts != []
  {
    match t
    case Leaf(id) => [Operand(id)]
    case Paren(t1) => [LeftParen] + Yield(t1) + [RightParen]
    case Unary(u, t1) => [UnaryToken(u)] + Yield(t1)
    case Bin(op, l, r) => Yield(l) + [Binary(op)] + Yield(r)
  }

  // ----- trees that respect the priorities

  /** Every binary operator on the left edge of t binds tighter than p. */
  predicate LeftAbove(t: Tree, p: nat) {
    t.Bin? ==> LeftPriority(t.op) > p && LeftAbove(t.l, p)
  }

  /** No operator on the right edge of t gives way to one with left priority p. */
  predicate RightHolds(t: Tree, p: nat) {
    match t
    case Bin(op, _, r) => RightPriority(op) >= p && RightHolds(r, p)
    case Unary(_, t1) => UNARY_PRIORITY >= p && RightHolds(t1, p)
    case _ => true
  }

  /** t respects the priority table everywhere. */
  predicate Respects(t: Tree) {
    match t
    case Leaf(_) => true
    case Paren(t1) => Respects(t1)
    case Unary(_, t1) => Respects(t1) && LeftAbove(t1, UNARY_PRIORITY)
    case Bin(op, l, r) => Respects(l) && Respects(r) && RightHolds(l, LeftPriority(op))
                          && LeftAbove(r, RightPriority(op))
  }

  /** The operator that follows, if any, does not bind tighter than limit. */
  predicate Stops(ts: seq<Token>, limit: nat) {
    var op := BinaryOf(ts);
    op.Some? ==> LeftPriority(op.value) <= limit
  }

  // ----- the parser

  datatype Result = Failed | Parsed(t: Tree, rest: seq<Token>)

  /** simpleexp, or a unary operator with its operand. */
  function Operands(ts: seq<Token>, fuel: nat): (r: Result)
    ensures r.Parsed? ==> |r.rest| < |ts|
    decreases |ts|, 0
  {
    if ts == [] then Failed
    else if UnaryOf(ts[0]).Some? then
      match Parse(ts[1..], UNARY_PRIORITY, fuel)
      case Failed => Failed
      case Parsed(t, rest) => Parsed(Unary(UnaryOf(ts[0]).value, t), rest)
    else if ts[0].Operand? then Parsed(Leaf(ts[0].id), ts[1..])
    else if ts[0].LeftParen? then
      match Parse(ts[1..], 0, fuel)
      case Failed => Failed
      case Parsed(t, rest) => if rest != [] && rest[0].RightParen? then Parsed(Paren(t), rest[1..]) else Failed
    else Failed
  }

  /** subexpr, when it may call itself fuel levels deep. */
  function Parse(ts: seq<Token>, limit: nat, fuel: nat): (r: Result)
    ensures r.Parsed? ==> |r.rest| < |ts|
    decreases |ts|, 2
  {
    if fuel == 0 then Failed
    else
      match Operands(ts, fuel - 1)
      case Failed => Failed
      case Parsed(t, rest) => Climb(t, rest, limit, fuel - 1)
  }

  /** The loop of subexpr: t is the operand read so far. */
  function Climb(t: Tree, ts: seq<Token>, limit: nat, fuel: nat): (r: Result)
    ensures r.Parsed? ==> |r.rest| <= |ts|
    decreases |ts|, 1
  {
    if Stops(ts, limit) then Parsed(t, ts)
    else
      var op := BinaryOf(ts).value;
      match Parse(ts[1..], RightPriority(op), fuel)
      case Failed => Failed
      case Parsed(r, rest) => Climb(Bin(op, t, r), rest, limit, fuel)
  }

  // ----- what is parsed respects the priorities

  /** The priorities of an operator differ by one at most, so that what a limit lets through
      does not reach into what was read under it. */
  lemma {:induction false} EdgeHolds(t: Tree, limit: nat, p: nat)
    requires Respects(t) && LeftAbove(t, limit) && p <= limit && p in {1, 2, 3, 5, 6, 7, 10}
    requires limit in {0, 1, 2, 3, 4, 6, 7, 8, 9}
    ensures RightHolds(t, p)
    decreases t
  {
    match t
    case Bin(op, l, r) => EdgeHolds(r, RightPriority(op), p);
    case Unary(_, t1) => EdgeHolds(t1, UNARY_PRIORITY, p);
    case _ =>
  }

  predicate Limit(limit: nat) {
    limit in {0, 1, 2, 3, 4, 6, 7, 8, 9}
  }

  ghost predicate Good(ts: seq<Token>, limit: nat, r: Result) {
    r.Parsed? ==> Yield(r.t) + r.rest == ts && Respects(r.t) && LeftAbove(r.t, limit) && Stops(r.rest, limit)
  }

  /** The right edge of t holds against the operator that follows. */
  predicate Holds(t: Tree, ts: seq<Token>) {
    BinaryOf(ts).Some? ==> RightHolds(t, LeftPriority(BinaryOf(ts).value))
  }

  lemma {:induction false} OperandsGood(ts: seq<Token>, fuel: nat)
    ensures var r := Operands(ts, fuel);
            r.Parsed? ==> Yield(r.t) + r.rest == ts && Respects(r.t) && !r.t.Bin? && Holds(r.t, r.rest)
    decreases |ts|, 0
  {
    if ts != [] {
      assert ts == [ts[0]] + ts[1..];
      if UnaryOf(ts[0]).Some? {
        ParseGood(ts[1..], UNARY_PRIORITY, fuel);
        var r := Parse(ts[1..], UNARY_PRIORITY, fuel);
        if r.Parsed? {
          assert UnaryToken(UnaryOf(ts[0]).value) == ts[0];
          assert [ts[0]] + Yield(r.t) + r.rest == [ts[0]] + (Yield(r.t) + r.rest);
          if BinaryOf(r.rest).Some? { EdgeHolds(r.t, UNARY_PRIORITY, LeftPriority(BinaryOf(r.rest).value)); }
        }
      } else if ts[0].LeftParen? {
        ParseGood(ts[1..], 0, fuel);
        var r := Parse(ts[1..], 0, fuel);
        if r.Parsed? && r.rest != [] {
          assert r.rest == [r.rest[0]] + r.rest[1..];
          assert [ts[0]] + Yield(r.t) + [r.rest[0]] + r.rest[1..] == [ts[0]]
            + (Yield(r.t) + ([r.rest[0]] + r.rest[1..]));
        }
      }
    }
  }

  lemma {:induction false} ParseGood(ts: seq<Token>, limit: nat, fuel: nat)
    requires Limit(limit)
    ensures Good(ts, limit, Parse(ts, limit, fuel))
    decreases |ts|, 2
  {
    if fuel > 0 {
      OperandsGood(ts, fuel - 1);
      var r := Operands(ts, fuel - 1);
      if r.Parsed? { ClimbGood(r.t, r.rest, limit, fuel - 1, ts); }
    }
  }

  lemma {:induction false} ClimbGood(t: Tree, ts: seq<Token>, limit: nat, fuel: nat, all: seq<Token>)
    requires Limit(limit) && Yield(t) + ts == all && Respects(t) && LeftAbove(t, limit)
    requires Holds(t, ts)
    ensures Good(all, limit, Climb(t, ts, limit, fuel))
    decreases |ts|, 1
  {
    if !Stops(ts, limit) {
      var op := BinaryOf(ts).value;
      ParseGood(ts[1..], RightPriority(op), fuel);
      var r := Parse(ts[1..], RightPriority(op), fuel);
      if r.Parsed? {
        var t' := Bin(op, t, r.t);
        assert ts == [ts[0]] + ts[1..];
        assert Yield(t') + r.rest == Yield(t) + ([Binary(op)] + (Yield(r.t) + r.rest));
        if BinaryOf(r.rest).Some? { EdgeHolds(r.t, RightPriority(op), LeftPriority(BinaryOf(r.rest).value)); }
        ClimbGood(t', r.rest, limit, fuel, all);
      }
    }
  }

  // ----- every tree that respects the priorities is parsed

  /** How deep subexpr calls itself for t. */
  function Levels(t: Tree): nat {
    match t
    case Leaf(_) => 1
    case Paren(t1) => 1 + Levels(t1)
    case Unary(_, t1) => 1 + Levels(t1)
    case Bin(_, l, r) => if Levels(l) > 1 + Levels(r) then Levels(l) else 1 + Levels(r)
  }

  /** After the tokens of t, subexpr stands in its loop with t as the operand. */
  ghost predicate Consumed(t: Tree, rest: seq<Token>, limit: nat, fuel: nat) {
    fuel > 0 && Parse(Yield(t) + rest, limit, fuel) == Climb(t, rest, limit, fuel - 1)
  }

  lemma ConsumedParen(t: Tree, rest: seq<Token>, limit: nat, fuel: nat)
    requires fuel > 0 && Consumed(t, [RightParen] + rest, 0, fuel - 1)
    ensures Consumed(Paren(t), rest, limit, fuel)
  {
    var ts := Yield(Paren(t)) + rest;
    assert ts[1..] == Yield(t) + ([RightParen] + rest);
    assert ([RightParen] + rest)[1..] == rest;
  }

  lemma ConsumedUnary(u: UnOpr, t: Tree, rest: seq<Token>, limit: nat, fuel: nat)
    requires fuel > 0 && Consumed(t, rest, UNARY_PRIORITY, fuel - 1) && Stops(rest, UNARY_PRIORITY)
    ensures Consumed(Unary(u, t), rest, limit, fuel)
  {
    assert (Yield(Unary(u, t)) + rest)[1..] == Yield(t) + rest;
  }

  lemma ClimbStep(t: Tree, op: BinOpr, ts: seq<Token>, limit: nat, fuel: nat)
    requires LeftPriority(op) > limit
    ensures Climb(t, [Binary(op)] + ts, limit, fuel) ==
              match Parse(ts, RightPriority(op), fuel)
              case Failed => Failed
              case Parsed(r, rest) => Climb(Bin(op, t, r), rest, limit, fuel)
  {
    hide Parse;
    assert ([Binary(op)] + ts)[1..] == ts;
  }

  lemma ClimbStops(t: Tree, ts: seq<Token>, limit: nat, fuel: nat)
    requires Stops(ts, limit)
    ensures Climb(t, ts, limit, fuel) == Parsed(t, ts)
  {
    hide Parse;
  }

  lemma YieldBin(op: BinOpr, l: Tree, r: Tree, rest: seq<Token>)
    ensures Yield(Bin(op, l, r)) + rest == Yield(l) + ([Binary(op)] + (Yield(r) + rest))
  {
  }

  lemma ConsumedBin(op: BinOpr, l: Tree, r: Tree, rest: seq<Token>, limit: nat, fuel: nat)
    requires Consumed(l, [Binary(op)] + (Yield(r) + rest), limit, fuel) && LeftPriority(op) > limit
    requires fuel > 0 && Consumed(r, rest, RightPriority(op), fuel - 1) && Stops(rest, RightPriority(op))
    ensures Consumed(Bin(op, l, r), rest, limit, fuel)
  {
    hide Parse, Climb, Yield, Stops, LeftPriority, RightPriority;
    YieldBin(op, l, r, rest);
    ClimbStep(l, op, Yield(r) + rest, limit, fuel - 1);
    ClimbStops(r, rest, RightPriority(op), fuel - 2);
  }

  lemma {:induction false} Consumes(t: Tree, rest: seq<Token>, limit: nat, fuel: nat)
    requires Respects(t) && LeftAbove(t, limit) && Levels(t) <= fuel && Holds(t, rest)
    ensures Consumed(t, rest, limit, fuel)
    decreases t
  {
    hide Consumed, Yield;
    match t
    case Leaf(id) => ConsumedLeaf(id, rest, limit, fuel);
    case Paren(t1) =>
      AllAboveZero(t1);
      Consumes(t1, [RightParen] + rest, 0, fuel - 1);
      ConsumedParen(t1, rest, limit, fuel);
    case Unary(u, t1) =>
      Consumes(t1, rest, UNARY_PRIORITY, fuel - 1);
      ConsumedUnary(u, t1, rest, limit, fuel);
    case Bin(op, l, r) =>
      Consumes(l, [Binary(op)] + (Yield(r) + rest), limit, fuel);
      Consumes(r, rest, RightPriority(op), fuel - 1);
      ConsumedBin(op, l, r, rest, limit, fuel);
  }

  lemma ConsumedLeaf(id: nat, rest: seq<Token>, limit: nat, fuel: nat)
    requires fuel > 0
    ensures Consumed(Leaf(id), rest, limit, fuel)
  {
    assert (Yield(Leaf(id)) + rest)[1..] == rest;
  }

  lemma {:induction false} AllAboveZero(t: Tree)
    ensures LeftAbove(t, 0)
    decreases t
  {
    if t.Bin? { AllAboveZero(t.l); }
  }

  /** t is a reading of ts up to rest, under limit. */
  ghost predicate Reading(ts: seq<Token>, limit: nat, t: Tree, rest: seq<Token>) {
    ts == Yield(t) + rest && Respects(t) && LeftAbove(t, limit) && Stops(rest, limit)
  }

  lemma ReadingParsed(ts: seq<Token>, limit: nat, fuel: nat, t: Tree, rest: seq<Token>)
    requires Limit(limit) && Reading(ts, limit, t, rest) && Levels(t) <= fuel
    ensures Parse(ts, limit, fuel) == Parsed(t, rest)
  {
    if BinaryOf(rest).Some? { EdgeHolds(t, limit, LeftPriority(BinaryOf(rest).value)); }
    Consumes(t, rest, limit, fuel);
  }

  // ----- the nesting limit

  lemma {:induction false} OperandsDepth(ts: seq<Token>, fuel: nat)
    ensures var r := Operands(ts, fuel); r.Parsed? ==> Levels(r.t) <= fuel + 1
    decreases |ts|, 0
  {
    if ts != [] && UnaryOf(ts[0]).Some? {
      ParseDepth(ts[1..], UNARY_PRIORITY, fuel);
    } else if ts != [] && ts[0].LeftParen? {
      ParseDepth(ts[1..], 0, fuel);
    }
  }

  lemma {:induction false} ParseDepth(ts: seq<Token>, limit: nat, fuel: nat)
    ensures var r := Parse(ts, limit, fuel); r.Parsed? ==> Levels(r.t) <= fuel
    decreases |ts|, 2
  {
    if fuel > 0 {
      OperandsDepth(ts, fuel - 1);
      var r := Operands(ts, fuel - 1);
      if r.Parsed? { ClimbDepth(r.t, r.rest, limit, fuel - 1); }
    }
  }

  lemma {:induction false} ClimbDepth(t: Tree, ts: seq<Token>, limit: nat, fuel: nat)
    requires Levels(t) <= fuel + 1
    ensures var r := Climb(t, ts, limit, fuel); r.Parsed? ==> Levels(r.t) <= fuel + 1
    decreases |ts|, 1
  {
    if !Stops(ts, limit) {
      var op := BinaryOf(ts).value;
      ParseDepth(ts[1..], RightPriority(op), fuel);
      var r := Parse(ts[1..], RightPriority(op), fuel);
      if r.Parsed? { ClimbDepth(Bin(op, t, r.t), r.rest, limit, fuel); }
    }
  }

  /** subexpr returns a tree exactly if it is a reading of the input and not nested too deep; the
      operator it stops at does not bind tighter than limit. */
  lemma ParseIff(ts: seq<Token>, limit: nat, fuel: nat, t: Tree, rest: seq<Token>)
    requires Limit(limit)
    ensures Parse(ts, limit, fuel) == Parsed(t, rest) <==> Reading(ts, limit, t, rest) && Levels(t) <= fuel
  {
    hide Parse, Respects, LeftAbove, Yield, Levels;
    if Reading(ts, limit, t, rest) && Levels(t) <= fuel { ReadingParsed(ts, limit, fuel, t, rest); }
    ParseGood(ts, limit, fuel);
    ParseDepth(ts, limit, fuel);
  }

  /** No two trees that respect the priorities have the same tokens. */
  lemma UniqueTree(t: Tree, t': Tree)
    requires Respects(t) && Respects(t') && Yield(t) == Yield(t')
    ensures t == t'
  {
    AllAboveZero(t);
    AllAboveZero(t');
    assert Yield(t) + [] == Yield(t) && Yield(t') + [] == Yield(t');
    var fuel := Levels(t) + Levels(t');
    ReadingParsed(Yield(t), 0, fuel, t, []);
    ReadingParsed(Yield(t), 0, fuel, t', []);
  }

  // ----- the levels of the reference manual

  /** Section 2.5.6, from lower to higher priority.  The seventh level is that of the unary
      operators. */
  const LEVELS: seq<set<BinOpr>> :=
    [{Or}, {And}, {Lt, Gt, Le, Ge, Ne, Eq}, {Concat}, {Add, Sub}, {Mul, Div, Mod}, {}, {Pow}]

  const UNARY_LEVEL: nat := 6
  const OPERAND_LEVEL: nat := 8

  predicate RightAssociative(op: BinOpr) {
    op == Concat || op == Pow
  }

  /** op stands in level k. */
  predicate InLevel(op: BinOpr, k: nat) {
    k < |LEVELS| && op in LEVELS[k]
  }

  /** The head of t binds at least as tight as level k. */
  predicate Tight(t: Tree, k: nat) {
    match t
    case Leaf(_) => true
    case Paren(_) => true
    case Unary(_, _) => k <= UNARY_LEVEL
    case Bin(op, _, _) => exists n :: k <= n < |LEVELS| && InLevel(op, n)
  }

  /** t groups as the manual says: without parentheses no operand is headed by a looser
      operator, and of two operators of one level the left one groups first, but for the right
      associative ones.  Only after '^' may a unary operator follow, although it is looser. */
  predicate Grouped(t: Tree) {
    match t
    case Leaf(_) => true
    case Paren(t1) => Grouped(t1)
    case Unary(_, t1) => Grouped(t1) && Tight(t1, UNARY_LEVEL)
    case Bin(op, l, r) =>
      && Grouped(l) && Grouped(r)
      && forall k :: 0 <= k < |LEVELS| && InLevel(op, k) ==>
           if RightAssociative(op) then Tight(l, k + 1) && (Tight(r, k) || (op == Pow && r.Unary?))
           else Tight(l, k) && Tight(r, k + 1)
  }

  function LevelOf(op: BinOpr): nat {
    match op
    case Or => 0 case And => 1 case Concat => 3
    case Add => 4 case Sub => 4
    case Mul => 5 case Div => 5 case Mod => 5
    case Pow => 7
    case _ => 2
  }

  lemma LevelIs(op: BinOpr, k: nat)
    ensures InLevel(op, k) <==> k == LevelOf(op)
  {
  }

  function Head(t: Tree): nat {
    match t
    case Unary(_, _) => UNARY_LEVEL
    case Bin(op, _, _) => LevelOf(op)
    case _ => OPERAND_LEVEL
  }

  lemma TightIs(t: Tree, k: nat)
    requires k <= OPERAND_LEVEL
    ensures Tight(t, k) <==> k <= Head(t)
  {
    if t.Bin? {
      forall n: nat ensures InLevel(t.op, n) <==> n == LevelOf(t.op) { LevelIs(t.op, n); }
      assert LevelOf(t.op) < |LEVELS| && InLevel(t.op, LevelOf(t.op));
    }
  }

  /** Grouped, one step. */
  lemma GroupedIs(op: BinOpr, l: Tree, r: Tree)
    ensures Grouped(Bin(op, l, r)) <==>
              && Grouped(l) && Grouped(r)
              && (if RightAssociative(op)
                  then LevelOf(op) < Head(l) && (LevelOf(op) <= Head(r) || (op == Pow && r.Unary?))
                  else LevelOf(op) <= Head(l) && LevelOf(op) < Head(r))
  {
    forall k: nat ensures InLevel(op, k) <==> k == LevelOf(op) { LevelIs(op, k); }
    assert LevelOf(op) < |LEVELS|;
    TightIs(l, LevelOf(op));
    TightIs(l, LevelOf(op) + 1);
    TightIs(r, LevelOf(op));
    TightIs(r, LevelOf(op) + 1);
  }

  /** The left edge of a grouped tree gets no looser. */
  lemma {:induction false} GroupedLeft(t: Tree, op: BinOpr)
    requires Grouped(t) && (LevelOf(op) < Head(t) || (RightAssociative(op) && LevelOf(op) <= Head(t)))
    ensures LeftAbove(t, RightPriority(op))
    decreases t
  {
    hide Grouped, LEVELS;
    if t.Bin? {
      GroupedIs(t.op, t.l, t.r);
      GroupedLeft(t.l, op);
    }
  }

  lemma {:induction false} GroupedUnder(t: Tree)
    requires Grouped(t) && UNARY_LEVEL <= Head(t)
    ensures LeftAbove(t, UNARY_PRIORITY)
    decreases t
  {
    hide Grouped, LEVELS;
    if t.Bin? {
      GroupedIs(t.op, t.l, t.r);
      GroupedUnder(t.l);
    }
  }

  /** The right edge of a grouped tree holds against what may follow. */
  lemma {:induction false} GroupedRight(t: Tree, op: BinOpr)
    requires Grouped(t) && if RightAssociative(op) then LevelOf(op) < Head(t) else LevelOf(op) <= Head(t)
    ensures RightHolds(t, LeftPriority(op))
    decreases t
  {
    hide Grouped, LEVELS;
    match t
    case Bin(op1, l, r) =>
      GroupedIs(op1, l, r);
      GroupedRight(r, op);
    case Unary(_, t1) =>
      UnaryGrouped(t1);
      GroupedRight(t1, op);
    case _ =>
  }

  lemma UnaryGrouped(t1: Tree)
    ensures forall u :: Grouped(Unary(u, t1)) <==> Grouped(t1) && UNARY_LEVEL <= Head(t1)
  {
    TightIs(t1, UNARY_LEVEL);
  }

  /** The priority table of the parser says what the levels of the manual say. */
  lemma {:induction false} TableIsManual(t: Tree)
    ensures Respects(t) <==> Grouped(t)
    decreases t
  {
    hide Grouped, LEVELS;
    match t
    case Leaf(_) => assert Grouped(t) by { LeafGrouped(t.id); }
    case Paren(t1) =>
      TableIsManual(t1);
      ParenGrouped(t1);
    case Unary(_, t1) =>
      TableIsManual(t1);
      UnaryGrouped(t1);
      if Grouped(t1) && UNARY_LEVEL <= Head(t1) { GroupedUnder(t1); }
    case Bin(op, l, r) =>
      TableIsManual(l);
      TableIsManual(r);
      GroupedIs(op, l, r);
      if Grouped(t) {
        GroupedRight(l, op);
        if !r.Unary? { GroupedLeft(r, op); }
      }
  }

  lemma LeafGrouped(id: nat)
    ensures Grouped(Leaf(id))
  {
  }

  lemma ParenGrouped(t: Tree)
    ensures Grouped(Paren(t)) <==> Grouped(t)
  {
  }

  /** The parser reads a whole expression exactly as the manual groups it. */
  lemma ManualParse(ts: seq<Token>, fuel: nat, t: Tree, rest: seq<Token>)
    ensures Parse(ts, 0, fuel) == Parsed(t, rest) <==>
              ts == Yield(t) + rest && Grouped(t) && BinaryOf(rest).None? && Levels(t) <= fuel
  {
    hide Grouped, Parse, Yield, Respects;
    ParseIff(ts, 0, fuel, t, rest);
    TableIsManual(t);
    AllAboveZero(t);
  }

  // ----- spelling

  function BinaryWord(op: BinOpr): string {
    match op
    case Add => "+" case Sub => "-" case Mul => "*" case Div => "/" case Mod => "%" case Pow => "^"
    case Concat => ".." case Ne => "~=" case Eq => "==" case Lt => "<" case Le => "<=" case Gt => ">" case Ge => ">="
    case And => "and" case Or => "or"
  }

  function UnaryWord(u: UnOpr): string {
    match u case Negate => "-" case LogicNot => "not" case Len => "#"
  }

  datatype Word = Name(id: nat) | Sign(word: string)

  function Spelled(t: Token): Word {
    match t
    case Operand(id) => Name(id)
    case LeftParen => Sign("(")
    case RightParen => Sign(")")
    case Not => Sign("not")
    case Length => Sign("#")
    case Binary(op) => Sign(BinaryWord(op))
    case Other(id) => Sign("")
  }

  /** An expression as it is written. */
  function Written(t: Tree): seq<Word> {
    match t
    case Leaf(id) => [Name(id)]
    case Paren(t1) => [Sign("(")] + Written(t1) + [Sign(")")]
    case Unary(u, t1) => [Sign(UnaryWord(u))] + Written(t1)
    case Bin(op, l, r) => Written(l) + [Sign(BinaryWord(op))] + Written(r)
  }

  function Words(ts: seq<Token>): (ws: seq<Word>)
    ensures |ws| == |ts| && forall k :: 0 <= k < |ts| ==> ws[k] == Spelled(ts[k])
  {
    seq(|ts|, k requires 0 <= k < |ts| => Spelled(ts[k]))
  }

  /** The tokens of a tree spell it out. */
  lemma {:induction false} YieldSpells(t: Tree)
    ensures Words(Yield(t)) == Written(t)
    decreases t
  {
    match t
    case Leaf(_) =>
    case Paren(t1) => YieldSpells(t1);
    case Unary(_, t1) => YieldSpells(t1);
    case Bin(_, l, r) =>
      YieldSpells(l);
      YieldSpells(r);
  }

  // ----- the parser in the form of the source

  class LexState {
    const tokens: seq<Token>
    var pos: nat
    var nCcalls: nat

    constructor (tokens: seq<Token>)
      ensures this.tokens == tokens && Valid() && Left() == tokens && nCcalls == 0
    {
      this.tokens, pos, nCcalls := tokens, 0, 0;
    }

    ghost predicate Valid()
      reads this
    {
      pos <= |tokens| && nCcalls <= LUAI_MAXCCALLS
    }

    /** The current token and those after it. */
    ghost function Left(): seq<Token>
      requires Valid()
      reads this
    {
      tokens[pos..]
    }

    /** simpleexp and the unary operators. */
    method Operand() returns (ok: bool, v: Tree)
      requires Valid()
      modifies `pos, `nCcalls
      ensures Valid() && (ok ==> nCcalls == old(nCcalls))
      ensures match Operands(old(Left()), LUAI_MAXCCALLS - old(nCcalls)) case Failed => !ok
              case Parsed(t, rest) => ok && v == t && Left() == rest
      decreases |tokens| - pos, 0
    {
      hide Parse;
      v := Leaf(0);
      if pos == |tokens| { return false, v; }
      var t := tokens[pos];
      assert Left()[0] == t && Left()[1..] == tokens[pos + 1..];
      var u := UnaryOf(t);
      if u.Some? {
        pos := pos + 1;
        var next;
        ok, v, next := SubExpr(UNARY_PRIORITY);
        v := Unary(u.value, v);
      } else if t.Operand? {
        pos := pos + 1;
        return true, Leaf(t.id);
      } else if t.LeftParen? {
        pos := pos + 1;
        var next;
        ok, v, next := SubExpr(0);
        if !ok { return; }
        ok := pos < |tokens| && tokens[pos].RightParen?;
        if ok { pos := pos + 1; }
        v := Paren(v);
      } else {
        return false, v;
      }
    }

    /** subexpr: returns the first operator that it left alone. */
    method SubExpr(limit: nat) returns (ok: bool, v: Tree, op: Option<BinOpr>)
      requires Valid()
      modifies `pos, `nCcalls
      ensures Valid() && (ok ==> nCcalls == old(nCcalls) && pos > old(pos))
      ensures match Parse(old(Left()), limit, LUAI_MAXCCALLS - old(nCcalls)) case Failed => !ok
              case Parsed(t, rest) => ok && v == t && Left() == rest
      ensures ok ==> op == BinaryOf(Left()) && (op.Some? ==> LeftPriority(op.value) <= limit)
      decreases |tokens| - pos, 1
    {
      hide Operands;
      v, op := Leaf(0), None;
      if nCcalls + 1 > LUAI_MAXCCALLS { return false, v, op; }
      nCcalls := nCcalls + 1;
      ok, v := Operand();
      if !ok { return; }
      assert |Left()| < |old(Left())|;
      op := if pos < |tokens| && tokens[pos].Binary? then Some(tokens[pos].op) else None;
      while op.Some? && LeftPriority(op.value) > limit
        invariant ok && Valid() && nCcalls == old(nCcalls) + 1 && pos > old(pos) && op == BinaryOf(Left())
        invariant Climb(v, Left(), limit, LUAI_MAXCCALLS - nCcalls)
                  == Parse(old(Left()), limit, LUAI_MAXCCALLS - old(nCcalls))
        decreases |tokens| - pos
      {
        assert Left()[0] == tokens[pos] && Left()[1..] == tokens[pos + 1..];
        pos := pos + 1;
        var v2, nextop;
        ok, v2, nextop := SubExpr(RightPriority(op.value));
        if !ok { return; }
        v, op := Bin(op.value, v, v2), nextop;
      }
      nCcalls := nCcalls - 1;
    }
  }
}
