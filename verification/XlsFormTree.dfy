/**
 What the imported tree is: importXlsForm of packages/form-schema/src/xlsform-import.ts:133-345 keeps
 every accepted row, in order, and reproduces the markers when they balance.
 */
module XlsFormTree {
  import opened Prelude
  import opened Slices
  import opened XlsForm

  /** Writing a tree back as rows with markers. */
  function Print(ts: seq<Tree>): seq<Token>
    decreases ts, 0
  {
    if ts == [] then [] else PrintOne(ts[0]) + Print(ts[1..])
  }

  function PrintOne(t: Tree): seq<Token>
    decreases t, 1
  {
    match t
    case Leaf(head) => [Item(head)]
    case Group(head, children) => [Open(head)] + Print(children) + [Close]
  }

  function Preorder(ts: seq<Tree>): seq<Head>
    decreases ts, 0
  {
    if ts == [] then [] else PreorderOf(ts[0]) + Preorder(ts[1..])
  }

  function PreorderOf(t: Tree): seq<Head>
    decreases t, 1
  {
    [t.head] + if t.Group? then Preorder(t.children) else []
  }

  lemma {:induction false} PrintConcat(a: seq<Tree>, b: seq<Tree>)
    ensures Print(a + b) == Print(a) + Print(b)
  {
    if a == [] {
      assert a + b == b;
    } else {
      assert (a + b)[1..] == a[1..] + b;
      PrintConcat(a[1..], b);
      Concat3(PrintOne(a[0]), Print(a[1..]), Print(b));
    }
  }

  lemma PrintSnoc(ts: seq<Tree>, t: Tree)
    ensures Print(ts + [t]) == Print(ts) + PrintOne(t)
  {
    PrintConcat(ts, [t]);
    assert [t][1..] == [];
    assert PrintOne(t) + [] == PrintOne(t);
  }

  // ---------------------------------------------------------------- balance

  /** The depth after the tokens, or None when a marker closes what was never opened. */
  function DepthAfter(tokens: seq<Token>, depth: nat): Option<nat>
    decreases |tokens|
  {
    if tokens == [] then Some(depth)
    else
      match tokens[0]
      case Open(_) => DepthAfter(tokens[1..], depth + 1)
      case Item(_) => DepthAfter(tokens[1..], depth)
      case Close => if depth == 0 then None else DepthAfter(tokens[1..], depth - 1)
  }

  predicate Balanced(tokens: seq<Token>) {
    DepthAfter(tokens, 0) == Some(0)
  }

  lemma {:induction false} DepthConcat(a: seq<Token>, b: seq<Token>, depth: nat)
    ensures DepthAfter(a + b, depth) == if DepthAfter(a, depth).None? then None else DepthAfter(b, DepthAfter(a, depth).value)
    decreases |a|
  {
    if a == [] {
      assert a + b == b;
    } else {
      assert (a + b)[1..] == a[1..] + b;
      match a[0] {
        case Open(_) => DepthConcat(a[1..], b, depth + 1);
        case Item(_) => DepthConcat(a[1..], b, depth);
        case Close =>
          if depth > 0 {
            DepthConcat(a[1..], b, depth - 1);
          }
      }
    }
  }

  lemma {:induction false} PrintIsBalanced(ts: seq<Tree>, depth: nat)
    ensures DepthAfter(Print(ts), depth) == Some(depth)
    decreases ts, 0
  {
    if ts != [] {
      PrintOneIsBalanced(ts[0], depth);
      PrintIsBalanced(ts[1..], depth);
      DepthConcat(PrintOne(ts[0]), Print(ts[1..]), depth);
    }
  }

  lemma {:induction false} PrintOneIsBalanced(t: Tree, depth: nat)
    ensures DepthAfter(PrintOne(t), depth) == Some(depth)
    decreases t, 1
  {
    if t.Leaf? {
      assert [Item(t.head)][1..] == [];
    } else {
      PrintIsBalanced(t.children, depth + 1);
      DepthConcat([Open(t.head)], Print(t.children), depth);
      DepthConcat([Open(t.head)] + Print(t.children), [Close], depth);
      assert [Open(t.head)][1..] == [] && [Close][1..] == [];
      assert DepthAfter([Open(t.head)], depth) == Some(depth + 1);
      assert DepthAfter([Close], depth + 1) == Some(depth);
    }
  }

  // ---------------------------------------------------------------- the machine prints what it read

  function PrintFrames(stack: seq<Frame>): seq<Token> {
    if stack == [] then []
    else
      var top := stack[|stack| - 1];
      PrintFrames(stack[..|stack| - 1]) + ([Open(top.head)] + Print(top.list))
  }

  function PrintMachine(m: Machine): seq<Token> {
    Print(m.root) + PrintFrames(m.stack)
  }

  lemma FramesSnoc(stack: seq<Frame>, f: Frame)
    ensures PrintFrames(stack + [f]) == PrintFrames(stack) + ([Open(f.head)] + Print(f.list))
  {
    assert (stack + [f])[..|stack|] == stack;
  }

  lemma PushPrints(m: Machine, t: Tree)
    ensures PrintMachine(Push(m, t)) == PrintMachine(m) + PrintOne(t)
    ensures |Push(m, t).stack| == |m.stack|
  {
    hide PrintOne;
    if m.stack == [] {
      PrintSnoc(m.root, t);
      assert Print(m.root) + [] == Print(m.root);
      assert Print(m.root + [t]) + [] == Print(m.root + [t]);
    } else {
      var front, top := m.stack[..|m.stack| - 1], m.stack[|m.stack| - 1];
      FramesSnoc(front, top.(list := top.list + [t]));
      PrintSnoc(top.list, t);
      Regroup(Print(m.root), PrintFrames(front), [Open(top.head)], Print(top.list), PrintOne(t));
    }
  }

  lemma Regroup<T>(a: seq<T>, b: seq<T>, c: seq<T>, d: seq<T>, e: seq<T>)
    ensures a + (b + (c + (d + e))) == a + (b + (c + d)) + e
  {
  }

  lemma PopPrints(m: Machine)
    requires m.stack != []
    ensures PrintMachine(Pop(m)) == PrintMachine(m) + [Close]
    ensures |Pop(m).stack| == |m.stack| - 1
  {
    var front, top := m.stack[..|m.stack| - 1], m.stack[|m.stack| - 1];
    PushPrints(m.(stack := front), Group(top.head, top.list));
    hide Push, Print;
    var a, b, c, d := Print(m.root), PrintFrames(front), [Open(top.head)], Print(top.list);
    assert (a + b) + (c + d + [Close]) == (a + (b + (c + d))) + [Close];
  }

  /** The depth a reader is at when closing markers without an open group are ignored. */
  function Depth(tokens: seq<Token>): nat {
    if tokens == [] then 0
    else
      var before := Depth(tokens[..|tokens| - 1]);
      match tokens[|tokens| - 1]
      case Open(_) => before + 1
      case Item(_) => before
      case Close => if before == 0 then 0 else before - 1
  }

  /** The tokens without the ignored closing markers. */
  function Kept(tokens: seq<Token>): seq<Token> {
    if tokens == [] then []
    else
      var front, last := tokens[..|tokens| - 1], tokens[|tokens| - 1];
      Kept(front) + if last.Close? && Depth(front) == 0 then [] else [last]
  }

  function Closes(n: nat): seq<Token> {
    if n == 0 then [] else [Close] + Closes(n - 1)
  }

  lemma {:induction false} MachinePrintsTokens(tokens: seq<Token>)
    ensures PrintMachine(Run(tokens)) == Kept(tokens) && |Run(tokens).stack| == Depth(tokens)
  {
    if tokens != [] {
      MachinePrintsTokens(tokens[..|tokens| - 1]);
      StepPrints(Run(tokens[..|tokens| - 1]), tokens[|tokens| - 1]);
    }
  }

  lemma StepPrints(m: Machine, t: Token)
    ensures PrintMachine(Step(m, t)) == PrintMachine(m) + if t.Close? && m.stack == [] then [] else [t]
    ensures |Step(m, t).stack| == match t { case Open(_) => |m.stack| + 1 case Item(_) => |m.stack| case Close => Max(0, |m.stack| - 1) }
  {
    match t {
      case Open(head) =>
        FramesSnoc(m.stack, Frame(head, []));
        assert [Open(head)] + [] == [Open(head)];
        Concat3(Print(m.root), PrintFrames(m.stack), [Open(head)]);
      case Item(head) => PushPrints(m, Leaf(head));
      case Close =>
        if m.stack != [] {
          PopPrints(m);
        } else {
          assert PrintMachine(m) + [] == PrintMachine(m);
        }
    }
  }

  lemma {:induction false} CloseAllPrints(m: Machine)
    ensures Print(CloseAll(m)) == PrintMachine(m) + Closes(|m.stack|)
    decreases |m.stack|
  {
    if m.stack == [] {
      assert Print(m.root) + [] + [] == Print(m.root);
    } else {
      PopPrints(m);
      CloseAllPrints(Pop(m));
      Concat3(PrintMachine(m), [Close], Closes(|m.stack| - 1));
    }
  }

  /** For any rows: printing the tree gives back the markers and items that were read, less closing
      markers that closed nothing, plus one for each group left open. */
  lemma TreePrintsRepaired(tokens: seq<Token>)
    ensures Print(CloseAll(Run(tokens))) == Kept(tokens) + Closes(Depth(tokens))
  {
    MachinePrintsTokens(tokens);
    CloseAllPrints(Run(tokens));
  }

  lemma {:induction false} NothingToRepair(tokens: seq<Token>)
    requires DepthAfter(tokens, 0).Some?
    ensures Kept(tokens) == tokens && Depth(tokens) == DepthAfter(tokens, 0).value
  {
    if tokens != [] {
      var front, last := tokens[..|tokens| - 1], tokens[|tokens| - 1];
      assert tokens == front + [last];
      DepthConcat(front, [last], 0);
      assert [last][1..] == [];
      NothingToRepair(front);
    }
  }

  /** The tree reproduces the bracket structure exactly when the markers balance. */
  lemma ReproducesIffBalanced(tokens: seq<Token>)
    ensures Print(CloseAll(Run(tokens))) == tokens <==> Balanced(tokens)
  {
    TreePrintsRepaired(tokens);
    if Balanced(tokens) {
      NothingToRepair(tokens);
      assert tokens + [] == tokens;
    }
    PrintIsBalanced(CloseAll(Run(tokens)), 0);
  }

  // ---------------------------------------------------------------- every accepted row, in order

  lemma {:induction false} HeadsConcat(a: seq<Token>, b: seq<Token>)
    ensures HeadsOf(a + b) == HeadsOf(a) + HeadsOf(b)
  {
    if b == [] {
      assert a + b == a;
    } else {
      var front, last := b[..|b| - 1], b[|b| - 1];
      assert a + b == (a + front) + [last];
      HeadsConcat(a, front);
      HeadsSnoc(a + front, last);
      HeadsSnoc(front, last);
      assert b == front + [last];
    }
  }

  lemma {:induction false} PrintHeads(ts: seq<Tree>)
    ensures HeadsOf(Print(ts)) == Preorder(ts)
    decreases ts, 0
  {
    if ts != [] {
      PrintOneHeads(ts[0]);
      PrintHeads(ts[1..]);
      HeadsConcat(PrintOne(ts[0]), Print(ts[1..]));
    }
  }

  lemma {:induction false} PrintOneHeads(t: Tree)
    ensures HeadsOf(PrintOne(t)) == PreorderOf(t)
    decreases t, 1
  {
    HeadsSnoc([], Close);
    HeadsSnoc([], Open(t.head));
    HeadsSnoc([], Item(t.head));
    assert [] + [Close] == [Close] && [] + [Open(t.head)] == [Open(t.head)] && [] + [Item(t.head)] == [Item(t.head)];
    assert HeadsOf([Close]) == [] && HeadsOf([Open(t.head)]) == [t.head] && HeadsOf([Item(t.head)]) == [t.head];
    if t.Group? {
      PrintHeads(t.children);
      HeadsConcat([Open(t.head)], Print(t.children));
      HeadsConcat([Open(t.head)] + Print(t.children), [Close]);
    }
  }

  lemma {:induction false} KeptHeads(tokens: seq<Token>)
    ensures HeadsOf(Kept(tokens)) == HeadsOf(tokens)
  {
    if tokens != [] {
      var front, last := tokens[..|tokens| - 1], tokens[|tokens| - 1];
      KeptHeads(front);
      HeadsSnoc(Kept(front), last);
      assert Kept(front) + [] == Kept(front) && HeadsOf(front) + [] == HeadsOf(front);
    }
  }

  lemma {:induction false} ClosesHaveNoHeads(n: nat)
    ensures HeadsOf(Closes(n)) == []
  {
    if n > 0 {
      ClosesHaveNoHeads(n - 1);
      HeadsConcat([Close], Closes(n - 1));
      HeadsSnoc([], Close);
      assert [] + [Close] == [Close];
    }
  }

  /** For any survey, balanced or not: the tree's pre-order is the accepted rows, in order, each with
      an id no other question has. */
  lemma TreeHoldsEveryRow(survey: seq<Row>, v: Vocabulary)
    ensures var tree := CloseAll(Run(ReadAll(survey, v).tokens));
            && RowsOf(Preorder(tree)) == AcceptedRows(survey, v)
            && DistinctIds(Preorder(tree))
  {
    hide *;
    var tokens := ReadAll(survey, v).tokens;
    IdsAreDistinct(survey, v);
    HeadsAreTheAcceptedRows(survey, v);
    TreePrintsRepaired(tokens);
    PrintHeads(CloseAll(Run(tokens)));
    HeadsConcat(Kept(tokens), Closes(Depth(tokens)));
    KeptHeads(tokens);
    ClosesHaveNoHeads(Depth(tokens));
    assert HeadsOf(tokens) + [] == HeadsOf(tokens);
  }
}
