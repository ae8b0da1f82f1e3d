/**
 Folding XLSForm rows into a question tree: importXlsForm of
 packages/form-schema/src/xlsform-import.ts:133-345. A frame of the container stack holds the group's
 head and the children so far; the group joins its parent's list when the frame is popped.
 */
module XlsForm {
  import opened Prelude
  import opened QuestionIds

  /** `typ` is the trimmed type cell, empty when it is missing or not a string. */
  datatype Row = Row(typ: string, name: Option<string>, appearance: string)

  datatype Vocabulary = Vocabulary(
    typeKey: string -> string,
    mapType: string -> Option<string>,
    refine: (string, string) -> string,
    fold: string -> string)

  const META_TYPES: set<string> := {
    "start", "end", "today", "deviceid", "subscriberid", "simserial", "phonenumber", "username", "email", "audit",
    "start-geopoint", "start_geopoint"
  }

  datatype RowKind = Skip | Begin(repeat: bool) | End | Unsupported | Ask(questionType: string)

  function KindOf(row: Row, v: Vocabulary): RowKind {
    if row.typ == "" then Skip
    else if row.typ == "begin_group" || row.typ == "begin group" then Begin(false)
    else if row.typ == "begin_repeat" || row.typ == "begin repeat" then Begin(true)
    else if row.typ in {"end_group", "end group", "end_repeat", "end repeat"} then End
    else if row.typ in META_TYPES then Skip
    else
      var mapping := v.mapType(v.typeKey(row.typ));
      if mapping.None? then Unsupported else Ask(v.refine(mapping.value, row.appearance))
  }

  /** What a question or group takes from its row. `row` is the row's index. */
  datatype Head = Head(id: string, questionType: string, repeat: bool, row: nat)

  datatype Tree = Leaf(head: Head) | Group(head: Head, children: seq<Tree>)

  datatype Frame = Frame(head: Head, list: seq<Tree>)

  datatype Warning = UnsupportedType(row: nat) | Unclosed(groups: nat)

  /** `row.name ?? ...` with the fallback each kind uses. */
  function Suggested(row: Row, kind: RowKind, i: nat): string {
    if row.name.Some? then row.name.value
    else (if kind.Ask? then "q_" else if kind.Begin? && kind.repeat then "repeat_" else "group_") + NatDigits(i + 1)
  }

  // ---------------------------------------------------------------- rows as brackets

  datatype Token = Open(head: Head) | Item(head: Head) | Close

  datatype Scan = Scan(tokens: seq<Token>, taken: set<string>, warnings: seq<Warning>)

  /** Reading one row: at most one bracket or item, with the next free id. */
  function Read(s: Scan, row: Row, i: nat, v: Vocabulary): Scan {
    var kind := KindOf(row, v);
    var id := UniqueId(Suggested(row, kind, i), s.taken, v.fold);
    match kind
    case Skip => s
    case End => s.(tokens := s.tokens + [Close])
    case Unsupported => s.(warnings := s.warnings + [UnsupportedType(i + 2)])
    case Begin(repeat) => s.(tokens := s.tokens + [Open(Head(id, "group", repeat, i))], taken := s.taken + {id})
    case Ask(typ) => s.(tokens := s.tokens + [Item(Head(id, typ, false, i))], taken := s.taken + {id})
  }

  function ReadAll(rows: seq<Row>, v: Vocabulary): Scan {
    if rows == [] then Scan([], {}, []) else Read(ReadAll(rows[..|rows| - 1], v), rows[|rows| - 1], |rows| - 1, v)
  }

  // ---------------------------------------------------------------- the stack machine

  datatype Machine = Machine(root: seq<Tree>, stack: seq<Frame>)

  /** pushTo. */
  function Push(m: Machine, t: Tree): Machine {
    if m.stack == [] then m.(root := m.root + [t])
    else
      var top := m.stack[|m.stack| - 1];
      m.(stack := m.stack[..|m.stack| - 1] + [top.(list := top.list + [t])])
  }

  /** stack.pop(), which does nothing on an empty stack. */
  function Pop(m: Machine): Machine {
    if m.stack == [] then m
    else
      var top := m.stack[|m.stack| - 1];
      Push(m.(stack := m.stack[..|m.stack| - 1]), Group(top.head, top.list))
  }

  function Step(m: Machine, t: Token): Machine {
    match t
    case Open(head) => m.(stack := m.stack + [Frame(head, [])])
    case Item(head) => Push(m, Leaf(head))
    case Close => Pop(m)
  }

  function Run(tokens: seq<Token>): Machine {
    if tokens == [] then Machine([], []) else Step(Run(tokens[..|tokens| - 1]), tokens[|tokens| - 1])
  }

  /** Groups still open at the end stay in the tree with what they have. */
  function CloseAll(m: Machine): seq<Tree>
    decreases |m.stack|
  {
    if m.stack == [] then m.root else PopShrinks(m); CloseAll(Pop(m))
  }

  lemma PopShrinks(m: Machine)
    requires m.stack != []
    ensures |Pop(m).stack| == |m.stack| - 1
  {
  }

  lemma RunSnoc(tokens: seq<Token>, t: Token)
    ensures Run(tokens + [t]) == Step(Run(tokens), t)
  {
    assert (tokens + [t])[..|tokens|] == tokens;
  }

  method PushTo(root: seq<Tree>, stack: seq<Frame>, t: Tree) returns (root': seq<Tree>, stack': seq<Frame>)
    ensures Machine(root', stack') == Push(Machine(root, stack), t)
  {
    root', stack' := root, stack;
    if |stack| == 0 {
      root' := root + [t];
    } else {
      var top := stack[|stack| - 1];
      stack' := stack[..|stack| - 1] + [top.(list := top.list + [t])];
    }
  }

  method PopFrame(root: seq<Tree>, stack: seq<Frame>) returns (root': seq<Tree>, stack': seq<Frame>)
    ensures Machine(root', stack') == Pop(Machine(root, stack))
  {
    root', stack' := root, stack;
    if |stack| != 0 {
      var top := stack[|stack| - 1];
      root', stack' := PushTo(root, stack[..|stack| - 1], Group(top.head, top.list));
    }
  }

  /** One row of the walk over the survey. */
  method TakeRow(row: Row, i: nat, v: Vocabulary, root: seq<Tree>, stack: seq<Frame>, taken: set<string>, warnings: seq<Warning>, ghost scan: Scan)
    returns (root': seq<Tree>, stack': seq<Frame>, taken': set<string>, warnings': seq<Warning>)
    requires Machine(root, stack) == Run(scan.tokens) && taken == scan.taken && warnings == scan.warnings
    ensures Machine(root', stack') == Run(Read(scan, row, i, v).tokens)
    ensures taken' == Read(scan, row, i, v).taken && warnings' == Read(scan, row, i, v).warnings
  {
    hide Run, Push, Pop, UniqueId, KindOf, Suggested;
    root', stack', taken', warnings' := root, stack, taken, warnings;
    var kind := KindOf(row, v);
    match kind {
      case Skip =>
      case Unsupported =>
        warnings' := warnings + [UnsupportedType(i + 2)];
      case End =>
        root', stack' := PopFrame(root, stack);
        RunSnoc(scan.tokens, Close);
      case Begin(repeat) =>
        var id, more := TakeUniqueId(Suggested(row, kind, i), taken, v.fold);
        taken' := more;
        stack' := stack + [Frame(Head(id, "group", repeat, i), [])];
        RunSnoc(scan.tokens, Open(Head(id, "group", repeat, i)));
      case Ask(typ) =>
        var id, more := TakeUniqueId(Suggested(row, kind, i), taken, v.fold);
        taken' := more;
        root', stack' := PushTo(root, stack, Leaf(Head(id, typ, false, i)));
        RunSnoc(scan.tokens, Item(Head(id, typ, false, i)));
    }
  }

  /** importXlsForm's walk, and the tree it leaves behind. */
  method ImportXlsForm(survey: seq<Row>, v: Vocabulary) returns (questions: seq<Tree>, warnings: seq<Warning>)
    ensures questions == CloseAll(Run(ReadAll(survey, v).tokens))
    ensures var open := |Run(ReadAll(survey, v).tokens).stack|;
            warnings == ReadAll(survey, v).warnings + if open > 0 then [Unclosed(open)] else []
  {
    var root, stack: seq<Frame>, taken: set<string> := [], [], {};
    warnings := [];
    for i := 0 to |survey|
      invariant Machine(root, stack) == Run(ReadAll(survey[..i], v).tokens)
      invariant taken == ReadAll(survey[..i], v).taken && warnings == ReadAll(survey[..i], v).warnings
    {
      hide Read, Run;
      assert survey[..i + 1][..i] == survey[..i];
      root, stack, taken, warnings := TakeRow(survey[i], i, v, root, stack, taken, warnings, ReadAll(survey[..i], v));
    }
    assert survey[..|survey|] == survey;
    if |stack| > 0 {
      warnings := warnings + [Unclosed(|stack|)];
    }
    questions := Flush(root, stack);
  }

  method Flush(root: seq<Tree>, stack: seq<Frame>) returns (questions: seq<Tree>)
    ensures questions == CloseAll(Machine(root, stack))
  {
    var list, open := root, stack;
    while |open| != 0
      invariant CloseAll(Machine(list, open)) == CloseAll(Machine(root, stack))
      decreases |open|
    {
      PopShrinks(Machine(list, open));
      list, open := PopFrame(list, open);
    }
    questions := list;
  }

  // ---------------------------------------------------------------- distinct ids

  function HeadsOf(tokens: seq<Token>): seq<Head> {
    if tokens == [] then []
    else
      var last := tokens[|tokens| - 1];
      HeadsOf(tokens[..|tokens| - 1]) + if last.Close? then [] else [last.head]
  }

  lemma HeadsSnoc(tokens: seq<Token>, t: Token)
    ensures HeadsOf(tokens + [t]) == HeadsOf(tokens) + if t.Close? then [] else [t.head]
  {
    assert (tokens + [t])[..|tokens|] == tokens;
  }

  predicate DistinctIds(heads: seq<Head>) {
    forall i, j :: 0 <= i < j < |heads| ==> heads[i].id != heads[j].id
  }

  predicate RowsIncrease(heads: seq<Head>, bound: nat) {
    && (forall i :: 0 <= i < |heads| ==> heads[i].row < bound)
    && (forall i, j :: 0 <= i < j < |heads| ==> heads[i].row < heads[j].row)
  }

  predicate AllTaken(heads: seq<Head>, taken: set<string>) {
    forall i :: 0 <= i < |heads| ==> heads[i].id in taken
  }

  predicate Sound(heads: seq<Head>, taken: set<string>, bound: nat) {
    DistinctIds(heads) && AllTaken(heads, taken) && RowsIncrease(heads, bound)
  }

  lemma SoundSnoc(heads: seq<Head>, taken: set<string>, bound: nat, h: Head)
    requires Sound(heads, taken, bound) && h.id !in taken && h.row == bound
    ensures Sound(heads + [h], taken + {h.id}, bound + 1)
  {
  }

  lemma SoundLater(heads: seq<Head>, taken: set<string>, bound: nat)
    requires Sound(heads, taken, bound)
    ensures Sound(heads, taken, bound + 1)
  {
  }

  /** Whatever the rows, every question and group gets an id of its own, in row order. */
  lemma {:induction false} IdsAreDistinct(rows: seq<Row>, v: Vocabulary)
    ensures DistinctIds(HeadsOf(ReadAll(rows, v).tokens))
    ensures Sound(HeadsOf(ReadAll(rows, v).tokens), ReadAll(rows, v).taken, |rows|)
  {
    if rows != [] {
      IdsAreDistinct(rows[..|rows| - 1], v);
      ReadKeeps(ReadAll(rows[..|rows| - 1], v), rows[|rows| - 1], |rows| - 1, v);
    }
  }

  lemma ReadKeeps(s: Scan, row: Row, i: nat, v: Vocabulary)
    requires Sound(HeadsOf(s.tokens), s.taken, i)
    ensures Sound(HeadsOf(Read(s, row, i, v).tokens), Read(s, row, i, v).taken, i + 1)
  {
    hide UniqueId, KindOf, Suggested, Sound;
    var kind := KindOf(row, v);
    UniqueIdIsFree(Suggested(row, kind, i), s.taken, v.fold);
    var id := UniqueId(Suggested(row, kind, i), s.taken, v.fold);
    SoundLater(HeadsOf(s.tokens), s.taken, i);
    match kind {
      case Begin(repeat) =>
        HeadsSnoc(s.tokens, Open(Head(id, "group", repeat, i)));
        SoundSnoc(HeadsOf(s.tokens), s.taken, i, Head(id, "group", repeat, i));
      case Ask(typ) =>
        HeadsSnoc(s.tokens, Item(Head(id, typ, false, i)));
        SoundSnoc(HeadsOf(s.tokens), s.taken, i, Head(id, typ, false, i));
      case End =>
        HeadsSnoc(s.tokens, Close);
        assert HeadsOf(s.tokens) + [] == HeadsOf(s.tokens);
      case _ =>
    }
  }

  predicate IsAccepted(row: Row, v: Vocabulary) {
    KindOf(row, v).Begin? || KindOf(row, v).Ask?
  }

  /** The accepted rows' indices, in order. */
  function AcceptedRows(rows: seq<Row>, v: Vocabulary): seq<nat> {
    if rows == [] then []
    else AcceptedRows(rows[..|rows| - 1], v) + if IsAccepted(rows[|rows| - 1], v) then [|rows| - 1] else []
  }

  function RowsOf(heads: seq<Head>): seq<nat> {
    if heads == [] then [] else RowsOf(heads[..|heads| - 1]) + [heads[|heads| - 1].row]
  }

  lemma RowsOfSnoc(heads: seq<Head>, h: Head)
    ensures RowsOf(heads + [h]) == RowsOf(heads) + [h.row]
  {
    assert (heads + [h])[..|heads|] == heads;
  }

  lemma {:induction false} HeadsAreTheAcceptedRows(rows: seq<Row>, v: Vocabulary)
    ensures RowsOf(HeadsOf(ReadAll(rows, v).tokens)) == AcceptedRows(rows, v)
  {
    hide UniqueId, KindOf, Suggested;
    if rows != [] {
      var front, row := rows[..|rows| - 1], rows[|rows| - 1];
      HeadsAreTheAcceptedRows(front, v);
      ReadAddsItsRow(ReadAll(front, v), row, |front|, v);
    }
  }

  lemma ReadAddsItsRow(s: Scan, row: Row, i: nat, v: Vocabulary)
    ensures RowsOf(HeadsOf(Read(s, row, i, v).tokens)) == RowsOf(HeadsOf(s.tokens)) + if IsAccepted(row, v) then [i] else []
  {
    hide UniqueId, KindOf, Suggested;
    var kind := KindOf(row, v);
    var id := UniqueId(Suggested(row, kind, i), s.taken, v.fold);
    match kind {
      case Begin(repeat) =>
        HeadsSnoc(s.tokens, Open(Head(id, "group", repeat, i)));
        RowsOfSnoc(HeadsOf(s.tokens), Head(id, "group", repeat, i));
      case Ask(typ) =>
        HeadsSnoc(s.tokens, Item(Head(id, typ, false, i)));
        RowsOfSnoc(HeadsOf(s.tokens), Head(id, typ, false, i));
      case End =>
        HeadsSnoc(s.tokens, Close);
        assert HeadsOf(s.tokens) + [] == HeadsOf(s.tokens);
        assert RowsOf(HeadsOf(s.tokens)) + [] == RowsOf(HeadsOf(s.tokens));
      case _ =>
        assert RowsOf(HeadsOf(s.tokens)) + [] == RowsOf(HeadsOf(s.tokens));
    }
  }
}
