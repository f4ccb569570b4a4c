/**
  Turning a circuit into a Quirk URL (captain_quirk/qiskit.py).

  Each instruction's gate is classified into display tokens, one per qubit it
  acts on: a plain gate gives its upper-cased name, an RX/RY/RZ rotation
  gives `Rxft`/`Ryft`/`Rzft` with its angle, and a controlled gate gives one
  control dot per control qubit followed by the tokens of its base gate. The
  tokens are written into a column at the rows of the instruction's qubits,
  the column is appended to the grid, and the finished grid is rendered as
  compact JSON behind Quirk's URL prefix.
*/
module Qiskit {
  import opened Wrappers
  import opened Json
  import opened Utils

  /** A gate, as the three `convert` overloads tell gates apart. */
  datatype Gate =
    /** Any gate the default overload takes (H, X, Y, Z, but also e.g. SWAP), with its qubit count. */
    | Plain(name: string, qubits: nat)
    /** RXGate, RYGate, RZGate: name "rx", "ry" or "rz", and `params[0]`. */
    | Rotation(name: string, angle: Angle)
    /** A ControlledGate: `num_ctrl_qubits` and `base_gate`. */
    | Controlled(controls: nat, base: Gate)

  /** One entry of `circuit.data`: a gate and the register indices of its qubits, in order. */
  datatype Instruction = Instruction(gate: Gate, placement: seq<nat>)

  /** What `unparse` is handed: a circuit, or any other object. */
  datatype Value = Circuit(data: seq<Instruction>) | NotACircuit

  datatype Error =
    /** `NotImplementedError`: the argument is not a circuit. */
    | NotImplemented
    /** The failed `assert`: a gate's token count differs from its placement's length. */
    | LengthMismatch

  // ---------------------------------------------------------------------
  // Gate names
  // ---------------------------------------------------------------------

  predicate IsLowerAscii(c: char) {
    'a' <= c <= 'z'
  }

  predicate IsUpperAscii(c: char) {
    'A' <= c <= 'Z'
  }

  function UpperChar(c: char): char {
    if IsLowerAscii(c) then (c as int - 32) as char else c
  }

  function LowerChar(c: char): char {
    if IsUpperAscii(c) then (c as int + 32) as char else c
  }

  /** `str.upper()` on ASCII: lower-case letters become capitals, nothing else changes. */
  function Upper(s: string): (r: string)
    ensures |r| == |s|
    ensures forall i :: 0 <= i < |r| ==> !IsLowerAscii(r[i])
    ensures forall i :: 0 <= i < |s| && !IsLowerAscii(s[i]) ==> r[i] == s[i]
    ensures forall i :: 0 <= i < |s| && IsLowerAscii(s[i]) ==> LowerChar(r[i]) == s[i]
  {
    seq(|s|, i requires 0 <= i < |s| => UpperChar(s[i]))
  }

  /** `str.lower()` on ASCII: capitals become lower-case letters, nothing else changes. */
  function Lower(s: string): (r: string)
    ensures |r| == |s|
    ensures forall i :: 0 <= i < |r| ==> !IsUpperAscii(r[i]) && r[i] == LowerChar(s[i])
  {
    seq(|s|, i requires 0 <= i < |s| => LowerChar(s[i]))
  }

  /** `str.capitalize()` on ASCII: the first letter a capital, the others small. */
  function Capitalize(s: string): (r: string)
    ensures |r| == |s|
    ensures s != [] ==> !IsLowerAscii(r[0]) && LowerChar(r[0]) == LowerChar(s[0])
    ensures forall i :: 1 <= i < |r| ==> !IsUpperAscii(r[i]) && LowerChar(s[i]) == r[i]
  {
    if s == [] then [] else [UpperChar(s[0])] + Lower(s[1..])
  }

  // ---------------------------------------------------------------------
  // Classifying a gate into tokens (`convert`)
  // ---------------------------------------------------------------------

  /** The label of a control qubit, U+2022 BULLET. */
  const ControlSymbol: string := "•"

  const ControlToken: Token := Token(ControlSymbol, None)

  function Controls(k: nat): (r: seq<Token>)
    ensures |r| == k && forall i :: 0 <= i < k ==> r[i] == ControlToken
  {
    seq(k, _ => ControlToken)
  }

  /** The token of an uncontrolled gate: the default overload and the rotation overload. */
  function TargetToken(g: Gate): Token
    requires !g.Controlled?
  {
    match g
    case Plain(name, _) => Token(Upper(name), None)
    case Rotation(name, angle) => Token(Capitalize(name) + "ft", Some(angle))
  }

  /** `convert`: a gate's tokens, control dots first, then the base gate's. */
  function Classify(g: Gate): seq<Token> {
    match g
    case Controlled(k, base) => Controls(k) + Classify(base)
    case _ => [TargetToken(g)]
  }

  /** `gate.num_qubits`: a controlled gate adds its controls to its base gate's qubits. */
  function Arity(g: Gate): nat {
    match g
    case Plain(_, qubits) => qubits
    case Rotation(_, _) => 1
    case Controlled(k, base) => k + Arity(base)
  }

  /** The innermost, uncontrolled gate. */
  function Target(g: Gate): (t: Gate)
    ensures !t.Controlled?
  {
    match g
    case Controlled(_, base) => Target(base)
    case _ => g
  }

  /** All control qubits, over every level of nesting. */
  function ControlCount(g: Gate): nat {
    match g
    case Controlled(k, base) => k + ControlCount(base)
    case _ => 0
  }

  /**
    Control expansion, flattened: a gate classifies to one control dot per
    control qubit at any depth, followed by the single token of its target.
  */
  lemma {:induction false} ClassifyShape(g: Gate)
    ensures Classify(g) == Controls(ControlCount(g)) + [TargetToken(Target(g))]
  {
    match g
    case Controlled(k, base) =>
      ClassifyShape(base);
      assert Controls(k) + Controls(ControlCount(base)) == Controls(ControlCount(g));
    case _ =>
  }

  lemma {:induction false} ArityShape(g: Gate)
    ensures Arity(g) == ControlCount(g) + Arity(Target(g))
  {
    match g
    case Controlled(k, base) => ArityShape(base);
    case _ =>
  }

  /** One level of control expansion: k dots, then the base gate's tokens. */
  lemma ClassifyControlled(k: nat, base: Gate)
    ensures |Classify(Controlled(k, base))| == k + |Classify(base)|
    ensures forall i :: 0 <= i < k ==> Classify(Controlled(k, base))[i] == ControlToken
    ensures Classify(Controlled(k, base))[k..] == Classify(base)
  {
    assert Classify(Controlled(k, base)) == Controls(k) + Classify(base);
  }

  /**
    A gate yields as many tokens as it has qubits exactly when its target
    acts on one qubit; a multi-qubit plain gate such as SWAP yields too few.
  */
  lemma ClassifyMatchesArity(g: Gate)
    ensures |Classify(g)| == Arity(g) <==> Arity(Target(g)) == 1
  {
    ClassifyShape(g);
    ArityShape(g);
  }

  /**
    An uncontrolled gate gives exactly one token: a plain gate its name in
    capitals and no parameter, a rotation its capitalised name followed by
    "ft", carrying its angle.
  */
  lemma ClassifyUncontrolled(g: Gate)
    requires !g.Controlled?
    ensures |Classify(g)| == 1
    ensures g.Plain? ==> Classify(g)[0] == Token(Upper(g.name), None)
    ensures g.Rotation? ==> var t := Classify(g)[0];
      && t.param == Some(g.angle) && |t.symbol| == |g.name| + 2
      && t.symbol[..|g.name|] == Capitalize(g.name) && t.symbol[|g.name|..] == "ft"
  {
    if g.Rotation? {
      var symbol := Capitalize(g.name) + "ft";
      assert symbol[..|g.name|] == Capitalize(g.name);
      assert symbol[|g.name|..] == "ft";
    }
  }

  /** `convert`, with the controlled overload's appending loop and recursion. */
  method Convert(g: Gate) returns (tokens: seq<Token>)
    ensures tokens == Classify(g)
    decreases g
  {
    match g {
      case Plain(name, _) =>
        tokens := [Token(Upper(name), None)];
      case Rotation(name, angle) =>
        tokens := [Token(Capitalize(name) + "ft", Some(angle))];
      case Controlled(k, base) =>
        tokens := [];
        var i := 0;
        while i < k
          invariant i <= k
          invariant tokens == Controls(i)
        {
          tokens := tokens + [ControlToken];
          i := i + 1;
        }
        var rest := Convert(base);
        tokens := tokens + rest;
    }
  }

  // ---------------------------------------------------------------------
  // Building a column (`_parse_column`)
  // ---------------------------------------------------------------------

  /** One past the largest row named in `placement`, 0 for none: the column's length. */
  function Height(placement: seq<nat>): (h: nat)
    ensures forall i :: 0 <= i < |placement| ==> placement[i] < h
    ensures placement == [] <==> h == 0
    ensures placement != [] ==> exists i :: 0 <= i < |placement| && placement[i] == h - 1
  {
    if placement == [] then 0
    else
      var h := Height(placement[..|placement| - 1]);
      var q := Last(placement);
      assert placement == placement[..|placement| - 1] + [q];
      if h <= q then q + 1 else h
  }

  /** The cell the writes of `tokens` at `placement`, done in order, leave at `row`. */
  function LastWrite(tokens: seq<Token>, placement: seq<nat>, row: nat): Cell
    requires |placement| <= |tokens|
  {
    if placement == [] then Empty
    else if Last(placement) == row then Gate(tokens[|placement| - 1])
    else LastWrite(tokens, placement[..|placement| - 1], row)
  }

  /** The column for an instruction: its tokens at their qubits' rows, `EMPTY` elsewhere. */
  function ColumnOf(tokens: seq<Token>, placement: seq<nat>): Column
    requires |placement| <= |tokens|
  {
    seq(Height(placement), row requires 0 <= row < Height(placement) => LastWrite(tokens, placement, row))
  }

  /** A row no qubit of the placement names stays `EMPTY`. */
  lemma {:induction false} LastWriteUnnamed(tokens: seq<Token>, placement: seq<nat>, row: nat)
    requires |placement| <= |tokens|
    requires forall i :: 0 <= i < |placement| ==> placement[i] != row
    ensures LastWrite(tokens, placement, row) == Empty
  {
    if placement != [] {
      LastWriteUnnamed(tokens, placement[..|placement| - 1], row);
    }
  }

  /** A row gets the token of the last qubit in the placement that names it. */
  lemma {:induction false} LastWriteNamed(tokens: seq<Token>, placement: seq<nat>, i: nat)
    requires |placement| <= |tokens| && i < |placement|
    requires forall j :: i < j < |placement| ==> placement[j] != placement[i]
    ensures LastWrite(tokens, placement, placement[i]) == Gate(tokens[i])
  {
    if i < |placement| - 1 {
      LastWriteNamed(tokens, placement[..|placement| - 1], i);
    }
  }

  /**
    The column for an instruction: as long as its highest qubit row plus one
    (empty for no qubits), each named row holding the token of the last
    qubit that names it, every other row `EMPTY`.
  */
  lemma ColumnOfCells(tokens: seq<Token>, placement: seq<nat>)
    requires |placement| <= |tokens|
    ensures var c := ColumnOf(tokens, placement);
      && (placement == [] <==> c == [])
      && (forall i :: 0 <= i < |placement| ==> placement[i] < |c|)
      && (placement != [] ==> exists i :: 0 <= i < |placement| && placement[i] == |c| - 1)
    ensures var c := ColumnOf(tokens, placement);
      forall i :: 0 <= i < |placement| && (forall j :: i < j < |placement| ==> placement[j] != placement[i]) ==>
        c[placement[i]] == Gate(tokens[i])
    ensures var c := ColumnOf(tokens, placement);
      forall row :: 0 <= row < |c| && (forall i :: 0 <= i < |placement| ==> placement[i] != row) ==>
        c[row] == Empty
  {
    forall i | 0 <= i < |placement| && (forall j :: i < j < |placement| ==> placement[j] != placement[i])
      ensures LastWrite(tokens, placement, placement[i]) == Gate(tokens[i])
    {
      LastWriteNamed(tokens, placement, i);
    }
    forall row: nat | (forall i :: 0 <= i < |placement| ==> placement[i] != row)
      ensures LastWrite(tokens, placement, row) == Empty
    {
      LastWriteUnnamed(tokens, placement, row);
    }
  }

  /** Writing the token of the `k`-th qubit into a column padded past its row extends the writes by one. */
  lemma WriteStep(tokens: seq<Token>, placement: seq<nat>, k: nat, column: Column)
    requires k < |placement| <= |tokens|
    requires var h := Height(placement[..k]);
      h <= |column| <= if h <= placement[k] then placement[k] + 1 else h
    requires placement[k] < |column|
    requires forall row :: 0 <= row < |column| ==> column[row] == LastWrite(tokens, placement[..k], row)
    ensures var written := column[placement[k] := Gate(tokens[k])];
      && |written| == Height(placement[..k + 1])
      && forall row :: 0 <= row < |written| ==> written[row] == LastWrite(tokens, placement[..k + 1], row)
  {
    var done := placement[..k];
    assert placement[..k + 1] == done + [placement[k]];
    assert placement[..k + 1][..k] == done;
  }

  /** `_parse_column`: pad the column with `EMPTY` up to each qubit's row, then write its token there. */
  method ParseColumn(tokens: seq<Token>, placement: seq<nat>) returns (column: Column)
    requires |placement| <= |tokens|
    ensures column == ColumnOf(tokens, placement)
  {
    column := [];
    for k := 0 to |placement|
      invariant |column| == Height(placement[..k])
      invariant forall row :: 0 <= row < |column| ==> column[row] == LastWrite(tokens, placement[..k], row)
    {
      var qubit := placement[k];
      ghost var done := placement[..k];
      while |column| <= qubit
        invariant Height(done) <= |column| <= if Height(done) <= qubit then qubit + 1 else Height(done)
        invariant forall row :: 0 <= row < |column| ==> column[row] == LastWrite(tokens, done, row)
      {
        LastWriteUnnamed(tokens, done, |column|);
        column := column + [Empty];
      }
      WriteStep(tokens, placement, k, column);
      column := column[qubit := Gate(tokens[k])];
    }
    assert placement[..|placement|] == placement;
  }

  // ---------------------------------------------------------------------
  // The driver (`unparse`)
  // ---------------------------------------------------------------------

  /** The fixed front of every Quirk URL the converter builds. */
  const QuirkPrefix: string := "https://algassert.com/quirk#circuit="

  /** The document behind the URL: `{"cols": grid}`. */
  function Document(columns: seq<Column>): Json {
    JObject([Member("cols", GridJson(columns))])
  }

  /** The check `unparse` asserts: one token per qubit of the placement. */
  predicate ArityHolds(instruction: Instruction) {
    |Classify(instruction.gate)| == |instruction.placement|
  }

  /** The column each instruction contributes, in program order. */
  function ColumnsOf(data: seq<Instruction>): (r: seq<Column>)
    requires forall i :: 0 <= i < |data| ==> ArityHolds(data[i])
  {
    seq(|data|, i requires 0 <= i < |data| =>
      assert ArityHolds(data[i]);
      ColumnOf(Classify(data[i].gate), data[i].placement))
  }

  /**
    What `unparse` returns or raises for `v`: `NotImplementedError` for
    anything but a circuit; the failed assertion when some instruction's
    token count differs from its placement's length; otherwise the prefix
    followed by the compact JSON of the grid that appending one column per
    instruction, in program order, builds.
  */
  function UnparseResult(v: Value): Result<string, Error> {
    match v
    case NotACircuit => Failure(NotImplemented)
    case Circuit(data) =>
      if forall i :: 0 <= i < |data| ==> ArityHolds(data[i])
      then Success(QuirkPrefix + Render(Document(Layout(ColumnsOf(data)))))
      else Failure(LengthMismatch)
  }

  /** Extending the instructions by one extends their columns by its column. */
  lemma ColumnsOfSnoc(data: seq<Instruction>, i: nat)
    requires i < |data|
    requires forall j :: 0 <= j <= i ==> ArityHolds(data[j])
    ensures ColumnsOf(data[..i + 1]) == ColumnsOf(data[..i]) + [ColumnOf(Classify(data[i].gate), data[i].placement)]
  {
  }

  lemma LayoutSnoc(prior: seq<Column>, column: Column)
    ensures Layout(prior + [column]) == Appended(Layout(prior), column)
  {
    assert (prior + [column])[..|prior|] == prior;
  }

  /** `unparse`: one classify, check, build and append per instruction, in program order. */
  method Unparse(v: Value) returns (r: Result<string, Error>)
    ensures r == UnparseResult(v)
  {
    if v.NotACircuit? {
      return Failure(NotImplemented);
    }
    var data := v.data;
    var grid := new SyntaxGrid();
    var i := 0;
    while i < |data|
      invariant i <= |data|
      invariant forall j :: 0 <= j < i ==> ArityHolds(data[j])
      invariant grid.columns == Layout(ColumnsOf(data[..i]))
    {
      var instruction := data[i];
      var tokens := Convert(instruction.gate);
      if |tokens| != |instruction.placement| {
        assert !ArityHolds(data[i]);
        return Failure(LengthMismatch);
      }
      var column := ParseColumn(tokens, instruction.placement);
      ColumnsOfSnoc(data, i);
      LayoutSnoc(ColumnsOf(data[..i]), column);
      grid.Append(column);
      i := i + 1;
    }
    assert data[..i] == data;
    var document := JObject([Member("cols", grid.ToJson())]);
    return Success(QuirkPrefix + Render(document));
  }

  // ---------------------------------------------------------------------
  // What `unparse` promises
  // ---------------------------------------------------------------------

  /**
    `unparse` raises `NotImplementedError` exactly for a non-circuit, and
    the arity assertion fails exactly when some instruction's gate gives a
    different number of tokens than it has qubits in its placement.
  */
  lemma UnparseFails(v: Value)
    ensures UnparseResult(v) == Failure(NotImplemented) <==> v.NotACircuit?
    ensures UnparseResult(v) == Failure(LengthMismatch) <==>
      v.Circuit? && exists i :: 0 <= i < |v.data| && |Classify(v.data[i].gate)| != |v.data[i].placement|
  {
    if v.Circuit? && exists i :: 0 <= i < |v.data| && |Classify(v.data[i].gate)| != |v.data[i].placement| {
      var i :| 0 <= i < |v.data| && |Classify(v.data[i].gate)| != |v.data[i].placement|;
      assert !ArityHolds(v.data[i]);
    }
  }

  /**
    On success the URL is the fixed prefix followed by compact JSON text
    that decodes to `{"cols": grid}`; the grid decodes back to the layout of
    one column per instruction, has at most one column per instruction, and
    holds exactly the tokens those columns hold.
  */
  lemma UnparseSucceeds(data: seq<Instruction>)
    requires forall i :: 0 <= i < |data| ==> ArityHolds(data[i])
    ensures var grid := Layout(ColumnsOf(data));
      && UnparseResult(Circuit(data)).Success?
      && var url := UnparseResult(Circuit(data)).value;
      && |QuirkPrefix| <= |url| && url[..|QuirkPrefix|] == QuirkPrefix
      && Parse(url[|QuirkPrefix|..]) == Some(JObject([Member("cols", GridJson(grid))]))
      && GridOfJson(GridJson(grid)) == Some(grid)
      && TotalOccupied(grid) == TotalOccupied(ColumnsOf(data))
      && |grid| <= |data|
  {
    var grid := Layout(ColumnsOf(data));
    var text := Render(Document(grid));
    var url := QuirkPrefix + text;
    assert UnparseResult(Circuit(data)) == Success(url);
    assert url[|QuirkPrefix|..] == text;
    RenderIsInjective(Document(grid));
    GridJsonRoundTrip(grid);
    LayoutOccupied(ColumnsOf(data));
    LayoutSize(ColumnsOf(data));
  }

  /**
    A circuit whose every instruction places a gate on as many qubits as
    the gate has, and whose gates all target one qubit, always converts;
    one gate that targets several qubits (a SWAP, say) makes it fail.
  */
  lemma UnparseArity(data: seq<Instruction>)
    requires forall i :: 0 <= i < |data| ==> |data[i].placement| == Arity(data[i].gate)
    ensures UnparseResult(Circuit(data)).Success? <==>
      forall i :: 0 <= i < |data| ==> Arity(Target(data[i].gate)) == 1
  {
    forall i | 0 <= i < |data| ensures ArityHolds(data[i]) <==> Arity(Target(data[i].gate)) == 1 {
      ClassifyMatchesArity(data[i].gate);
    }
  }

  // ---------------------------------------------------------------------
  // The circuit of the module's own `__main__` block
  // ---------------------------------------------------------------------

  /** `crz(0.5)` with control qubit 0 and target qubit 1, then `cx` with control qubit 1 and target qubit 0. */
  function DemoCircuit(): seq<Instruction> {
    [ Instruction(Controlled(1, Rotation("rz", Angle("0.5"))), [0, 1]),
      Instruction(Controlled(1, Plain("x", 1)), [1, 0]) ]
  }

  /** A two-qubit instruction on rows 0 and 1, in either order, fills a two-row column. */
  lemma ColumnOfTwoRows(t0: Token, t1: Token)
    ensures ColumnOf([t0, t1], [0, 1]) == [Cell.Gate(t0), Cell.Gate(t1)]
    ensures ColumnOf([t0, t1], [1, 0]) == [Cell.Gate(t1), Cell.Gate(t0)]
  {
    assert [0, 1][..1] == [0] && [1, 0][..1] == [1];
    assert Height([0, 1]) == 2 && Height([1, 0]) == 2;
    ColumnOfCells([t0, t1], [0, 1]);
    ColumnOfCells([t0, t1], [1, 0]);
  }

  lemma DemoTokens()
    ensures Classify(DemoCircuit()[0].gate) == [ControlToken, Token("Rzft", Some(Angle("0.5")))]
    ensures Classify(DemoCircuit()[1].gate) == [ControlToken, Token("X", None)]
  {
    assert Capitalize("rz") == "Rz";
    assert "Rz" + "ft" == "Rzft";
    assert Controls(1) == [ControlToken];
    assert Upper("x") == "X";
  }

  /**
    The two instructions clash on both rows, so the grid has two columns:
    a control dot over `Rzft(0.5)`, then `X` over a control dot.
  */
  lemma DemoLayout()
    ensures UnparseResult(Circuit(DemoCircuit())).Success?
    ensures Layout(ColumnsOf(DemoCircuit())) ==
      [ [Cell.Gate(ControlToken), Cell.Gate(Token("Rzft", Some(Angle("0.5"))))],
        [Cell.Gate(Token("X", None)), Cell.Gate(ControlToken)] ]
  {
    var data := DemoCircuit();
    var rz := Token("Rzft", Some(Angle("0.5")));
    var x := Token("X", None);
    DemoTokens();
    ColumnOfTwoRows(ControlToken, rz);
    ColumnOfTwoRows(ControlToken, x);
    var c0 := [Cell.Gate(ControlToken), Cell.Gate(rz)];
    var c1 := [Cell.Gate(x), Cell.Gate(ControlToken)];
    assert ColumnsOf(data) == [c0, c1];
    assert [c0, c1][..1] == [c0];
    assert [c0][..0] == [];
    MergedSomeIff(c0, c1);
    assert Clash(CellAt(c0, 0), CellAt(c1, 0));
  }

  /** The control dot is not ASCII, so the encoder writes it as `\u2022`. */
  lemma RenderControlSymbol()
    ensures Render(JString(ControlSymbol)) == "\"\\u2022\""
  {
    assert Hex4(0x2022) == "2022";
    assert EscapeChar('\U{2022}') == "\\u2022";
    assert Escape(ControlSymbol) == "\\u2022" + Escape([]);
  }

  /** Letters, digits and `.` stand for themselves inside a string literal. */
  lemma {:induction false} QuotePlain(s: string)
    requires forall i :: 0 <= i < |s| ==> 'a' <= s[i] <= 'z' || 'A' <= s[i] <= 'Z' || '0' <= s[i] <= '9' || s[i] == '.'
    ensures Render(JString(s)) == "\"" + s + "\""
    ensures Escape(s) == s
  {
    if s != [] {
      QuotePlain(s[1..]);
      assert EscapeChar(s[0]) == [s[0]];
      assert s == [s[0]] + s[1..];
    }
  }

  /** A two-element array is rendered as both elements between brackets, comma-separated. */
  lemma RenderPair(x: Json, y: Json)
    ensures Render(JArray([x, y])) == "[" + Render(x) + "," + Render(y) + "]"
  {
    assert [x, y][1..] == [y];
    assert RenderItems([x, y]) == Render(x) + "," + Render(y);
  }

  lemma RenderPlainMember(key: string, value: string)
    requires forall i :: 0 <= i < |key| ==> 'a' <= key[i] <= 'z'
    requires forall i :: 0 <= i < |value| ==> 'a' <= value[i] <= 'z' || 'A' <= value[i] <= 'Z' || '0' <= value[i] <= '9' || value[i] == '.'
    ensures RenderMember(Member(key, JString(value))) == "\"" + key + "\":\"" + value + "\""
  {
    QuotePlain(key);
    QuotePlain(value);
  }

  /** A token with a parameter is rendered as its `id` member, a comma and its `arg` member, in braces. */
  lemma RenderParamCell(symbol: string, angle: string)
    ensures Render(CellJson(Cell.Gate(Token(symbol, Some(Angle(angle)))))) ==
      "{" + (RenderMember(Member("id", JString(symbol))) + "," + RenderMember(Member("arg", JString(angle)))) + "}"
  {
    var id := Member("id", JString(symbol));
    var arg := Member("arg", JString(angle));
    assert [id, arg][1..] == [arg];
  }

  /**
    The rotation token of the demo circuit as text. This lemma and the text
    lemmas below only regroup string concatenations, so that the solver
    compares short literals one piece at a time.
  */
  lemma RenderRotationToken()
    ensures Render(CellJson(Cell.Gate(Token("Rzft", Some(Angle("0.5")))))) == "{\"id\":\"Rzft\",\"arg\":\"0.5\"}"
  {
    RenderParamCell("Rzft", "0.5");
    RenderPlainMember("id", "Rzft");
    RenderPlainMember("arg", "0.5");
    RotationText(RenderMember(Member("id", JString("Rzft"))), RenderMember(Member("arg", JString("0.5"))));
  }

  lemma RotationText(id: string, arg: string)
    requires id == "\"" + "id" + "\":\"" + "Rzft" + "\""
    requires arg == "\"" + "arg" + "\":\"" + "0.5" + "\""
    ensures "{" + (id + "," + arg) + "}" == "{\"id\":\"Rzft\",\"arg\":\"0.5\"}"
  {
  }

  /** The demo grid's first column as text: a control dot over `Rzft(0.5)`. */
  const DemoColumn0Text: string := "[\"\\u2022\",{\"id\":\"Rzft\",\"arg\":\"0.5\"}]"

  /** The demo grid's second column as text: `X` over a control dot. */
  const DemoColumn1Text: string := "[\"X\",\"\\u2022\"]"

  /** The URL text assembled from the rendered pieces of the demo grid. */
  lemma DemoUrlText(q: string, d: string, r: string, x: string)
    requires q == "\"" + "cols" + "\""
    requires d == "\"\\u2022\""
    requires r == "{\"id\":\"Rzft\",\"arg\":\"0.5\"}"
    requires x == "\"" + "X" + "\""
    ensures QuirkPrefix + ("{" + (q + ":" + ("[" + ("[" + d + "," + r + "]") + "," + ("[" + x + "," + d + "]") + "]")) + "}") ==
      QuirkPrefix + "{\"cols\":[" + DemoColumn0Text + "," + DemoColumn1Text + "]}"
  {
    assert "[" + d + "," + r + "]" == DemoColumn0Text;
    assert "[" + x + "," + d + "]" == DemoColumn1Text;
    assert "{" + q + ":" + "[" == "{\"cols\":[";
  }

  lemma DemoGridJson(c0: Column, c1: Column)
    requires c0 == [Cell.Gate(ControlToken), Cell.Gate(Token("Rzft", Some(Angle("0.5"))))]
    requires c1 == [Cell.Gate(Token("X", None)), Cell.Gate(ControlToken)]
    ensures GridJson([c0, c1]) == JArray([JArray([CellJson(c0[0]), CellJson(c0[1])]), JArray([CellJson(c1[0]), CellJson(c1[1])])])
  {
    var g := GridJson([c0, c1]);
    assert g.items[0] == JArray([CellJson(c0[0]), CellJson(c0[1])]);
    assert g.items[1] == JArray([CellJson(c1[0]), CellJson(c1[1])]);
    assert g == JArray([g.items[0], g.items[1]]);
  }

  /** A document holding a grid of two two-row columns, as text. */
  lemma RenderTwoByTwo(a0: Json, a1: Json, b0: Json, b1: Json)
    ensures Render(JObject([Member("cols", JArray([JArray([a0, a1]), JArray([b0, b1])]))])) ==
      "{" + (Quote("cols") + ":" + ("[" + ("[" + Render(a0) + "," + Render(a1) + "]") + "," + ("[" + Render(b0) + "," + Render(b1) + "]") + "]")) + "}"
  {
    var grid := JArray([JArray([a0, a1]), JArray([b0, b1])]);
    var m := Member("cols", grid);
    assert Render(JObject([m])) == "{" + RenderMember(m) + "}";
    assert RenderMember(m) == Quote("cols") + ":" + Render(grid);
    RenderPair(a0, a1);
    RenderPair(b0, b1);
    RenderPair(JArray([a0, a1]), JArray([b0, b1]));
  }

  /** The URL for a two-by-two grid whose cells render as the demo's cells do. */
  lemma TwoByTwoUrl(a0: Json, a1: Json, b0: Json, b1: Json)
    requires Render(a0) == "\"\\u2022\"" && Render(b1) == "\"\\u2022\""
    requires Render(a1) == "{\"id\":\"Rzft\",\"arg\":\"0.5\"}"
    requires Render(b0) == "\"" + "X" + "\""
    ensures QuirkPrefix + Render(JObject([Member("cols", JArray([JArray([a0, a1]), JArray([b0, b1])]))])) ==
      QuirkPrefix + "{\"cols\":[" + DemoColumn0Text + "," + DemoColumn1Text + "]}"
  {
    RenderTwoByTwo(a0, a1, b0, b1);
    QuotePlain("cols");
    DemoUrlText(Quote("cols"), Render(a0), Render(a1), Render(b0));
  }

  lemma DemoDocumentText(c0: Column, c1: Column)
    requires c0 == [Cell.Gate(ControlToken), Cell.Gate(Token("Rzft", Some(Angle("0.5"))))]
    requires c1 == [Cell.Gate(Token("X", None)), Cell.Gate(ControlToken)]
    ensures QuirkPrefix + Render(Document([c0, c1])) == QuirkPrefix + "{\"cols\":[" + DemoColumn0Text + "," + DemoColumn1Text + "]}"
  {
    DemoGridJson(c0, c1);
    RenderControlSymbol();
    RenderRotationToken();
    QuotePlain("X");
    TwoByTwoUrl(CellJson(c0[0]), CellJson(c0[1]), CellJson(c1[0]), CellJson(c1[1]));
  }

  /**
    The URL the module's `__main__` block prints for its circuit, character
    for character:
    `https://algassert.com/quirk#circuit={"cols":[["\u2022",{"id":"Rzft","arg":"0.5"}],["X","\u2022"]]}`.
  */
  lemma DemoUrl()
    ensures UnparseResult(Circuit(DemoCircuit())) ==
      Success(QuirkPrefix + "{\"cols\":[" + DemoColumn0Text + "," + DemoColumn1Text + "]}")
  {
    DemoLayout();
    var c0 := [Cell.Gate(ControlToken), Cell.Gate(Token("Rzft", Some(Angle("0.5"))))];
    var c1 := [Cell.Gate(Token("X", None)), Cell.Gate(ControlToken)];
    DemoDocumentText(c0, c1);
  }
}
