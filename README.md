# captain-quirk: a verified model of the circuit-to-Quirk converter

captain-quirk turns a quantum circuit into a URL that opens the circuit in
the Quirk visualiser. The converter is a short pipeline, and this project
models all of it in Dafny:

- **Classify** (`convert`). Each gate becomes a list of display tokens. A
  plain gate gives its name in capitals. An RX/RY/RZ rotation gives
  `Rxft`/`Ryft`/`Rzft` and carries its angle. A controlled gate gives one
  control dot `•` per control qubit, then the tokens of its base gate.
- **Build a column** (`_parse_column`). The tokens are written at the rows
  of the instruction's qubits. The column is padded with `EMPTY` (the
  integer 1) up to the highest row.
- **Lay out the grid** (`AbstractSyntaxGrid.append` / `_merge`). A new
  column is merged into the grid's last column when no row is occupied on
  both sides. The two columns are walked in step, and the shorter one is
  padded with `EMPTY`. Otherwise the column is pushed as a new last
  column. An empty grid always takes the push path.
- **Serialise** (`AbstractGate.to_json`, `AbstractSyntaxGrid.to_json`,
  `unparse`). `EMPTY` becomes `1`. A token without a parameter becomes its
  label. A token with one becomes `{"id": label, "arg": str(param)}`. The
  URL is `https://algassert.com/quirk#circuit=` followed by the compact
  JSON of `{"cols": grid}`.

Modules:

- `wrappers.dfy`: `Option` and `Result`.
- `json.dfy`: JSON values and their compact, ASCII-only rendering, written
  the way Python's `json.dumps` with `separators=(",", ":")` writes them. It
  also has a decoder. The decoder is not part of the converter: it is there
  to prove that the rendered text determines the value it came from.
- `utils.dfy`: `captain_quirk/_utils.py`. Cells, the merge as a pure
  `Option`-valued function, the grid as a class whose `columns` field
  `Merge` and `Append` change, and the JSON form of cells and grids.
- `qiskit.dfy`: `captain_quirk/qiskit.py`. Gates as a closed datatype, the
  classifier, the column builder, the `unparse` driver, and the circuit of
  the module's own `__main__` block.

The source's exceptions become explicit results. `_merge`'s `IndexError`
becomes `Merge` returning `false`. `NotImplementedError` and the failed
arity `assert` in `unparse` become the two `Error` values of a `Result`.

The code has no "unsupported gate" error: the default `convert` overload
accepts any gate and gives one token, its upper-cased name. A gate on
several qubits with no controls, such as SWAP, then yields too few tokens,
so the arity assertion in `unparse` fails. `Qiskit.ClassifyMatchesArity`
and `Qiskit.UnparseArity` state exactly when that happens.

## Model

| member | source | states |
|---|---|---|
| Utils.CellJson | captain_quirk/_utils.py:15-18 | A cell's JSON value reads back as the same cell; it is the number 1 exactly for `EMPTY`, and a bare string exactly for a token without a parameter |
| Utils.GridJson | captain_quirk/_utils.py:44-49 | The grid's JSON is an array with one array per column, each as long as its column, holding each cell's JSON value at the same position |
| Utils.GridJsonRoundTrip | captain_quirk/_utils.py:44-49 | The grid's JSON value decodes back to exactly the grid: nothing is lost or reordered |
| Utils.Merged | captain_quirk/_utils.py:33-42 | The pure merge of the last column with a new one, `None` where `_merge` raises `IndexError`. It has no contract of its own: `MergedSomeIff`, `MergedCells` and `MergedOccupied` specify it |
| Utils.MergedSomeIff | captain_quirk/_utils.py:33-42 | The merge succeeds if and only if no row, over the longer of the two columns, holds a token in both |
| Utils.MergedCells | captain_quirk/_utils.py:35-40 | A merged column is as long as the longer input. Each row holds the token of whichever side had one, or `EMPTY` where neither had |
| Utils.MergedOccupied | captain_quirk/_utils.py:33-42 | A merge keeps every token: the merged column has as many tokens as the two inputs together |
| Utils.MergedStep | captain_quirk/_utils.py:35-41 | One row of the merge walk: a row occupied on both sides makes the whole merge fail; otherwise the row's combined cell extends the prefix built so far |
| Utils.Appended | captain_quirk/_utils.py:27-31 | Appending to an empty grid gives exactly the one column. Otherwise the grid keeps its length or grows by one; when it grows, the new column is pushed unchanged; all columns before the old last one are untouched |
| Utils.AppendedMergesIff | captain_quirk/_utils.py:27-42 | The grid keeps its length if and only if the new column fits into the last one. On a clash the old columns stay as they were and the new column is pushed as it is |
| Utils.AppendedKeepsTokens | captain_quirk/_utils.py:36-42 | After an append, every token of the new column sits at its row of the grid's last column, and every token of the old last column stays at its row |
| Utils.Layout | captain_quirk/_utils.py:24-31 | The grid built by appending a run of columns to a new grid. It has no contract of its own: `LayoutSize` and `LayoutOccupied` specify it |
| Utils.LayoutSize | captain_quirk/_utils.py:24-31 | Appending columns one by one to an empty grid gives no columns for none, and never more columns than were appended |
| Utils.AppendedOccupied | captain_quirk/_utils.py:27-42 | One append adds exactly the new column's tokens to the grid's token count |
| Utils.LayoutOccupied | captain_quirk/_utils.py:27-42 | A run of appends keeps every token: the grid holds as many as the appended columns did |
| Utils.GreedyLookBack | captain_quirk/_utils.py:35 | Only the last column is ever considered: a column that clashes with it opens a new column, even when an earlier column has room |
| Utils.SyntaxGrid.constructor | captain_quirk/_utils.py:24-25 | A new grid has no columns |
| Utils.SyntaxGrid.Merge | captain_quirk/_utils.py:33-42 | Merging succeeds exactly on a non-empty grid whose last column is compatible. It then replaces only the last column, with the merge; on failure the grid is unchanged |
| Utils.SyntaxGrid.Append | captain_quirk/_utils.py:27-31 | The new columns are the specification `Appended` of the old columns and the column |
| Utils.SyntaxGrid.ToJson | captain_quirk/_utils.py:44-49 | The result has one entry per column and decodes back to the grid's columns |
| Qiskit.Upper | captain_quirk/qiskit.py:55 | Same length; no lower-case letter is left; other characters are unchanged; each letter that was lower-case is its capital |
| Qiskit.Lower | captain_quirk/qiskit.py:71 | Same length; no capital is left; each character is the lower-case form of the input's |
| Qiskit.Capitalize | captain_quirk/qiskit.py:71 | Same length; the first character is not a lower-case letter and is the same letter as the input's first; every later character is the lower-case form of the input's |
| Qiskit.Controls | captain_quirk/qiskit.py:61-62 | k control tokens, each the bullet `•` without a parameter |
| Qiskit.TargetToken | captain_quirk/qiskit.py:53-71 | The single token of an uncontrolled gate, from the default and the rotation overloads. It has no contract of its own: `ClassifyUncontrolled` specifies it |
| Qiskit.Classify | captain_quirk/qiskit.py:53-71 | The tokens `convert` returns for a gate. It has no contract of its own: `ClassifyUncontrolled`, `ClassifyControlled` and `ClassifyShape` specify it |
| Qiskit.Arity | captain_quirk/qiskit.py:43-45 | `num_qubits`, the placement length a gate must match. It has no contract of its own: `ClassifyMatchesArity` relates it to the token count |
| Qiskit.ClassifyUncontrolled | captain_quirk/qiskit.py:53-71 | An uncontrolled gate gives one token. For a plain gate it is its name in capitals without a parameter; for a rotation it is its capitalised name followed by `ft`, carrying its angle |
| Qiskit.ClassifyControlled | captain_quirk/qiskit.py:58-64 | A gate with k controls gives k + (base count) tokens: k control dots, then exactly the base gate's tokens |
| Qiskit.ClassifyShape | captain_quirk/qiskit.py:53-71 | Over any nesting of controls, a gate gives one control dot per control qubit, then the single token of its innermost gate |
| Qiskit.ClassifyMatchesArity | captain_quirk/qiskit.py:43-45 | A gate gives as many tokens as it has qubits if and only if its innermost gate acts on one qubit |
| Qiskit.Convert | captain_quirk/qiskit.py:53-71 | The appending loop and recursion of `convert` produce exactly the classification `Classify` |
| Qiskit.Height | captain_quirk/qiskit.py:28-30 | The padded length is above every placement row, is 0 exactly for an empty placement, and is one past some placement row |
| Qiskit.LastWriteUnnamed | captain_quirk/qiskit.py:29-30 | A row that no qubit of the placement names stays `EMPTY` |
| Qiskit.LastWriteNamed | captain_quirk/qiskit.py:27-31 | A named row holds the token of the last qubit in the placement that names it |
| Qiskit.ColumnOfCells | captain_quirk/qiskit.py:23-32 | The column is empty for an empty placement, else one past its highest row. Each named row holds the token of the last qubit naming it, and every other row is `EMPTY` |
| Qiskit.ColumnOf | captain_quirk/qiskit.py:23-32 | The column `_parse_column` builds, as a function of the tokens and the placement. It has no contract of its own: `ColumnOfCells` specifies it |
| Qiskit.WriteStep | captain_quirk/qiskit.py:31 | Writing the k-th token into the padded column gives the column for the first k+1 qubits |
| Qiskit.ParseColumn | captain_quirk/qiskit.py:23-32 | The padding loop and in-place writes produce exactly the specified column `ColumnOf` |
| Qiskit.Unparse | captain_quirk/qiskit.py:35-50 | The driver loop returns exactly `UnparseResult`. It fails with `NotImplemented` for a non-circuit and with `LengthMismatch` at the first bad instruction; otherwise it returns the prefix and the rendering of the grid built by appending one column per instruction, in program order |
| Qiskit.UnparseResult | captain_quirk/qiskit.py:36-50 | The outcome of `unparse` for a circuit: the URL or one of the two errors. It has no contract of its own: `UnparseFails`, `UnparseSucceeds` and `UnparseArity` specify it |
| Qiskit.UnparseFails | captain_quirk/qiskit.py:38-45 | `NotImplementedError` happens exactly for a non-circuit. The arity failure happens exactly when some instruction's token count differs from its placement length |
| Qiskit.UnparseSucceeds | captain_quirk/qiskit.py:41-50 | On success the URL starts with the fixed prefix. The rest is compact JSON that decodes to `{"cols": grid}`, where grid is the layout of one column per instruction. The grid decodes back, has at most one column per instruction, and keeps every token |
| Qiskit.UnparseArity | captain_quirk/qiskit.py:43-45 | For a circuit whose placements match gate sizes, `unparse` succeeds if and only if every innermost gate acts on one qubit |
| Qiskit.DemoLayout | captain_quirk/qiskit.py:74-78 | The `__main__` circuit converts. Its grid has two columns, a control dot over `Rzft(0.5)` and then `X` over a control dot, because the two instructions clash |
| Qiskit.DemoUrl | captain_quirk/qiskit.py:74-80 | The `__main__` circuit gives the URL `https://algassert.com/quirk#circuit={"cols":[["\u2022",{"id":"Rzft","arg":"0.5"}],["X","\u2022"]]}`, character for character |
| Qiskit.RenderControlSymbol | captain_quirk/qiskit.py:48-50 | The control dot `•` is written as the six-character escape `\u2022` in the URL |
| Json.Render | captain_quirk/qiskit.py:48-50 | The compact `json.dumps` text of a value. It has no contract of its own: `RenderIsInjective`, `ParseRender` and `RenderIsAscii` specify it |
| Json.EscapeChar | captain_quirk/qiskit.py:48-50 | How `json.dumps` with `ensure_ascii` writes one character inside a string literal. Its own contract gives only a non-empty ASCII result; `ParseEscaped` and `RenderIsAscii` specify it |
| Json.RenderIsInjective | captain_quirk/qiskit.py:48-50 | The compact JSON text decodes to the value it was rendered from, so distinct grids give distinct URLs |
| Json.ParseRender | captain_quirk/qiskit.py:48-50 | Decoding reads back a rendered value from the front of any text that follows it and does not start with a digit, leaving that text |
| Json.RenderIsAscii | captain_quirk/qiskit.py:48-50 | The rendered text is printable ASCII only: every other character has been escaped |
| Json.ParseEscaped | captain_quirk/qiskit.py:48-50 | The escaped body of a string literal, `\uXXXX` escapes and surrogate pairs included, decodes back to the string |

## Left out

- `parse` (captain_quirk/qiskit.py:18-20) is a stub whose body is `...`; it has no behaviour to model.
- The qiskit object model is not modelled: `QuantumCircuit`, `circuit.data`, gate classes and `Qubit`. A circuit is a sequence of (gate, register indices) records, and `singledispatch` is a `match` on the `Gate` datatype. Which concrete gate class lands in which overload is taken as given. `Qubit.index` is the index within the qubit's own register, and the model uses it as the row without checking registers, as the source does.
- The classical-bit part of each `circuit.data` entry is ignored, as in the source.
- `str(param)` float formatting: a rotation's parameter is an opaque `Angle` holding the text `str()` would give.
- Qiskit.Upper, Qiskit.Lower, Qiskit.Capitalize: ASCII only. Python's Unicode case mapping (for example of `ß`, or title-case letters) is not modelled.
- Python strings may hold lone surrogates, and `json.dumps` escapes them. Dafny's `char` is a Unicode scalar value, so lone surrogates are not modelled.
- Qiskit.Unparse: the `assert` is modelled as always checked. Under `python -O` the assert is stripped. An instruction with fewer tokens than qubits then raises `IndexError` in `_parse_column`. One with more tokens is written, and its extra tokens are dropped. That path is not modelled.
- The partial `new_column` that `_merge` builds before raising `IndexError` is discarded by the source. The model never exposes it: `Merge` leaves the grid unchanged on failure.
- `AbstractGate.__init__` is the `Token` constructor. The comparison of a token with `EMPTY` is the `Empty` constructor test: an `AbstractGate` never equals the integer 1.
- The decoder `Json.Parse` is not in the source. It is the reference the rendering is proved against.
