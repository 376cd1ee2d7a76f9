/** Result rows (pycubrid/protocol.py): the two row-reading paths, and a reference encoder of
    rows as the server sends them. */
module Rows {
  import opened Basics
  import opened Wire
  import opened Values

  const OID_SIZE: nat := 8

  /** CALL, EVALUATE and CALL_SP statements carry a type byte in every cell. */
  predicate IsCallType(statementType: byte) {
    statementType == 24 || statementType == 14 || statementType == 0x7E
  }

  // ---- Reading -----------------------------------------------------------------------

  /** Fast uses readers resolved once a column, Slow looks the type up in every cell, and
      PerColumn, which the source does not have, gives every column the rule its own type
      asks for. */
  datatype Path = Fast | Slow | PerColumn

  /** The slow path's read of one non-null cell of type t. */
  function GetDispatched(t: byte, decode: bool, b: seq<byte>, o: nat, size: nat): Read<Value> {
    match TypeMethod(t)
    case Some(m) =>
      var (v, o1) :- GetValue(m, decode, b, o, size);
      Got(Convert(t, v), o1)
    case None => Got(One(Raw(Slice(b, o, size))), o + size)
  }

  function GetCell(path: Path, isCall: bool, t: byte, decode: bool, b: seq<byte>, o: nat): Read<Value> {
    var (size, o1) :- GetInt(b, o);
    if size <= 0 then Got(One(Absent), o1)
    else if path == Fast || (path == PerColumn && !isCall && t != NULL_TYPE) then
      GetTyped(t, decode, b, o1, size)
    else if isCall || t == NULL_TYPE then
      var (actual, o2) :- GetByte(b, o1);
      if size - 1 <= 0 then Got(One(Absent), o2) else GetDispatched(actual, decode, b, o2, size - 1)
    else GetDispatched(t, decode, b, o1, size)
  }

  function GetCells(path: Path, isCall: bool, types: seq<byte>, decode: bool, b: seq<byte>, o: nat): Read<seq<Value>> {
    if types == [] then Got([], o)
    else
      var (v, o1) :- GetCell(path, isCall, types[0], decode, b, o);
      var (vs, o2) :- GetCells(path, isCall, types[1..], decode, b, o1);
      Got([v] + vs, o2)
  }

  /** A row index and an object identifier, both ignored, then the cells. */
  function GetRow(path: Path, isCall: bool, types: seq<byte>, decode: bool, b: seq<byte>, o: nat): Read<seq<Value>> {
    var (_, o1) :- GetInt(b, o);
    GetCells(path, isCall, types, decode, b, o1 + OID_SIZE)
  }

  function GetRows(path: Path, isCall: bool, types: seq<byte>, decode: bool, b: seq<byte>, o: nat,
                   count: int): Read<seq<seq<Value>>>
    decreases count
  {
    if count <= 0 then Got([], o)
    else
      var (row, o1) :- GetRow(path, isCall, types, decode, b, o);
      var (rows, o2) :- GetRows(path, isCall, types, decode, b, o1, count - 1);
      Got([row] + rows, o2)
  }

  /** Which path _parse_row_data takes. */
  function ChosenPath(isCall: bool, types: seq<byte>): Path {
    if isCall || NULL_TYPE in types then Slow else Fast
  }

  function GetRowData(isCall: bool, types: seq<byte>, decode: bool, b: seq<byte>, o: nat, count: int): Read<seq<seq<Value>>> {
    GetRows(ChosenPath(isCall, types), isCall, types, decode, b, o, count)
  }

  // ---- The paths agree ------------------------------------------------------------------

  predicate SamePath(p: Path, q: Path, isCall: bool, t: byte) {
    p == q || (p != Fast && q != Fast) || (!isCall && t != NULL_TYPE)
  }

  /** Looking the type up in the table, or resolving it beforehand, reads the same: an unknown
      type is raw bytes both ways. */
  lemma DispatchIsResolve(t: byte, decode: bool, b: seq<byte>, o: nat, size: nat)
    ensures GetDispatched(t, decode, b, o, size) == GetTyped(t, decode, b, o, size)
  {
    hide GetCollection, TypeMethod;
  }

  /** One cell read along two paths, on any bytes: same value, same offset, same failure. */
  lemma CellPathsAgree(p: Path, q: Path, isCall: bool, t: byte, decode: bool, b: seq<byte>, o: nat)
    requires SamePath(p, q, isCall, t)
    ensures GetCell(p, isCall, t, decode, b, o) == GetCell(q, isCall, t, decode, b, o)
  {
    hide GetInt, GetTyped, GetDispatched;
    var r := GetInt(b, o);
    if r.Got? && r.value > 0 { DispatchIsResolve(t, decode, b, r.off, r.value); }
  }

  lemma {:induction false} CellsPathsAgree(p: Path, q: Path, isCall: bool, types: seq<byte>, decode: bool, b: seq<byte>, o: nat)
    requires forall i :: 0 <= i < |types| ==> SamePath(p, q, isCall, types[i])
    ensures GetCells(p, isCall, types, decode, b, o) == GetCells(q, isCall, types, decode, b, o)
    decreases |types|
  {
    if types != [] {
      hide GetCell, SamePath;
      CellPathsAgree(p, q, isCall, types[0], decode, b, o);
      var r := GetCell(p, isCall, types[0], decode, b, o);
      if r.Got? { CellsPathsAgree(p, q, isCall, types[1..], decode, b, r.off); }
    }
  }

  lemma {:induction false} RowPathsAgree(p: Path, q: Path, isCall: bool, types: seq<byte>, decode: bool, b: seq<byte>, o: nat)
    requires forall i :: 0 <= i < |types| ==> SamePath(p, q, isCall, types[i])
    ensures GetRow(p, isCall, types, decode, b, o) == GetRow(q, isCall, types, decode, b, o)
  {
    hide GetCells, SamePath, GetInt;
    var head := GetInt(b, o);
    if head.Got? { CellsPathsAgree(p, q, isCall, types, decode, b, head.off + OID_SIZE); }
  }

  lemma {:induction false} RowsPathsAgree(p: Path, q: Path, isCall: bool, types: seq<byte>, decode: bool,
                                        b: seq<byte>, o: nat, count: int)
    requires forall i :: 0 <= i < |types| ==> SamePath(p, q, isCall, types[i])
    ensures GetRows(p, isCall, types, decode, b, o, count) == GetRows(q, isCall, types, decode, b, o, count)
    decreases count
  {
    hide GetRow, SamePath;
    if count > 0 {
      RowPathsAgree(p, q, isCall, types, decode, b, o);
      var r := GetRow(p, isCall, types, decode, b, o);
      if r.Got? { RowsPathsAgree(p, q, isCall, types, decode, b, r.off, count - 1); }
    }
  }

  /** The pre-resolved fast path equals the slow path on every byte string, failures included,
      whenever the statement is no call and no column is NULL-typed. */
  lemma FastEqualsSlow(types: seq<byte>, decode: bool, b: seq<byte>, o: nat, count: int)
    requires NULL_TYPE !in types
    ensures GetRows(Fast, false, types, decode, b, o, count) == GetRows(Slow, false, types, decode, b, o, count)
  {
    RowsPathsAgree(Fast, Slow, false, types, decode, b, o, count);
  }

  /** Whichever path is chosen, every column is read by the rule of its own type: a NULL-typed
      column, or a call, changes nothing for a column it does not concern. */
  lemma EachColumnByItsOwnType(isCall: bool, types: seq<byte>, decode: bool, b: seq<byte>, o: nat, count: int)
    ensures GetRowData(isCall, types, decode, b, o, count) == GetRows(PerColumn, isCall, types, decode, b, o, count)
  {
    RowsPathsAgree(ChosenPath(isCall, types), PerColumn, isCall, types, decode, b, o, count);
  }

  // ---- The reference encoder ----------------------------------------------------------------

  /** A cell on the wire: a null with some non-positive size, a null that carries only its type
      byte, or a typed payload. */
  datatype Cell = Null(size: int) | NullOf(t: byte) | Filled(t: byte, p: Payload)

  /** typed says that the cell carries a type byte. */
  predicate FitsCell(typed: bool, t: byte, c: Cell) {
    match c
    case Null(size) => size <= 0 && IsInt(size)
    case NullOf(_) => typed
    case Filled(actual, p) =>
      FitsPayload(actual, p) && (if typed then |EncodePayload(actual, p)| < 0x7FFF_FFFF else actual == t)
  }

  function EncodeCell(typed: bool, t: byte, c: Cell): seq<byte>
    requires FitsCell(typed, t, c)
  {
    match c
    case Null(size) => Int(size)
    case NullOf(actual) => Int(1) + [actual]
    case Filled(actual, p) =>
      var raw := EncodePayload(actual, p);
      if typed then Int(|raw| + 1) + ([actual] + raw) else Int(|raw|) + raw
  }

  function ShownCell(decode: bool, typed: bool, t: byte, c: Cell): Value
    requires FitsCell(typed, t, c)
  {
    if c.Filled? then Shown(decode, c.t, c.p) else One(Absent)
  }

  /** Cells of calls, and of columns of type code 0, are sent with their own type. */
  predicate Typed(isCall: bool, t: byte) { isCall || t == 0 }

  predicate FitsCells(isCall: bool, types: seq<byte>, cells: seq<Cell>) {
    |cells| == |types| && forall i :: 0 <= i < |types| ==> FitsCell(Typed(isCall, types[i]), types[i], cells[i])
  }

  function EncodeCells(isCall: bool, types: seq<byte>, cells: seq<Cell>): seq<byte>
    requires FitsCells(isCall, types, cells)
    decreases |types|
  {
    if types == [] then [] else
      EncodeCell(Typed(isCall, types[0]), types[0], cells[0]) + EncodeCells(isCall, types[1..], cells[1..])
  }

  function ShownCells(decode: bool, isCall: bool, types: seq<byte>, cells: seq<Cell>): (vs: seq<Value>)
    requires FitsCells(isCall, types, cells)
    ensures |vs| == |types|
    ensures forall i :: 0 <= i < |types| ==> vs[i] == ShownCell(decode, Typed(isCall, types[i]), types[i], cells[i])
    decreases |types|
  {
    if types == [] then [] else
      [ShownCell(decode, Typed(isCall, types[0]), types[0], cells[0])] + ShownCells(decode, isCall, types[1..], cells[1..])
  }

  /** The statement types whose cells a server sends typed, as numbers: EVALUATE, CALL, CALL_SP. */
  predicate SendsTypes(statementType: byte) { statementType in {14, 24, 126} }

  datatype Row = Row(index: int, oid: seq<byte>, cells: seq<Cell>)

  predicate FitsRow(isCall: bool, types: seq<byte>, r: Row) {
    IsInt(r.index) && |r.oid| == 8 && FitsCells(isCall, types, r.cells)
  }

  function EncodeRow(isCall: bool, types: seq<byte>, r: Row): seq<byte>
    requires FitsRow(isCall, types, r)
  {
    Int(r.index) + (r.oid + EncodeCells(isCall, types, r.cells))
  }

  predicate FitsRows(isCall: bool, types: seq<byte>, rows: seq<Row>) {
    forall i :: 0 <= i < |rows| ==> FitsRow(isCall, types, rows[i])
  }

  function EncodeRows(isCall: bool, types: seq<byte>, rows: seq<Row>): seq<byte>
    requires FitsRows(isCall, types, rows)
    decreases |rows|
  {
    if rows == [] then [] else EncodeRow(isCall, types, rows[0]) + EncodeRows(isCall, types, rows[1..])
  }

  function ShownRows(decode: bool, isCall: bool, types: seq<byte>, rows: seq<Row>): (vs: seq<seq<Value>>)
    requires FitsRows(isCall, types, rows)
    ensures |vs| == |rows|
    ensures forall i :: 0 <= i < |rows| ==> vs[i] == ShownCells(decode, isCall, types, rows[i].cells)
    decreases |rows|
  {
    if rows == [] then [] else
      [ShownCells(decode, isCall, types, rows[0].cells)] + ShownRows(decode, isCall, types, rows[1..])
  }

  // ---- Reading what was encoded ---------------------------------------------------------------

  lemma {:induction false} GetDispatchedAt(decode: bool, t: byte, b: seq<byte>, o: nat, p: Payload)
    requires FitsPayload(t, p) && At(b, o, EncodePayload(t, p))
    ensures var n := |EncodePayload(t, p)|;
            GetDispatched(t, decode, b, o, n) == Got(Shown(decode, t, p), o + n)
  {
    hide GetTyped, GetDispatched, EncodePayload, FitsPayload, Shown;
    GetValueAt(decode, t, b, o, p);
    DispatchIsResolve(t, decode, b, o, |EncodePayload(t, p)|);
  }

  lemma {:induction false} GetTypedNullAt(decode: bool, isCall: bool, t: byte, b: seq<byte>, o: nat, c: Cell)
    requires Typed(isCall, t) && !c.Filled? && FitsCell(true, t, c) && At(b, o, EncodeCell(true, t, c))
    ensures GetCell(PerColumn, isCall, t, decode, b, o) == Got(One(Absent), o + |EncodeCell(true, t, c)|)
  {
    hide At, GetInt, GetByte, GetDispatched;
    match c {
      case Null(size) => GetIntAt(b, o, size);
      case NullOf(actual) =>
        AtSplit(b, o, Int(1), [actual]);
        GetIntAt(b, o, 1);
        GetByteAt(b, o + 4, actual);
    }
  }

  /** What follows the size of a typed cell: its type byte, then the payload. */
  lemma {:induction false} GetTypedReads(decode: bool, isCall: bool, t: byte, b: seq<byte>, o: nat, actual: byte,
                                         size: int, r: Read<Value>)
    requires Typed(isCall, t) && size > 0
    requires GetInt(b, o) == Got(size + 1, o + 4) && GetByte(b, o + 4) == Got(actual, o + 5)
    requires GetDispatched(actual, decode, b, o + 5, size) == r
    ensures GetCell(PerColumn, isCall, t, decode, b, o) == r
  {
    hide GetInt, GetByte, GetDispatched;
  }

  lemma {:induction false} GetTypedFilledAt(decode: bool, isCall: bool, t: byte, b: seq<byte>, o: nat, actual: byte, p: Payload)
    requires Typed(isCall, t) && FitsPayload(actual, p) && |EncodePayload(actual, p)| < 0x7FFF_FFFF
    requires var raw := EncodePayload(actual, p); At(b, o, Int(|raw| + 1) + ([actual] + raw))
    ensures GetCell(PerColumn, isCall, t, decode, b, o) ==
            Got(Shown(decode, actual, p), o + 5 + |EncodePayload(actual, p)|)
  {
    hide At, GetInt, GetByte, GetCell, GetDispatched, EncodePayload, FitsPayload, Shown, Typed, Int;
    var raw := EncodePayload(actual, p);
    AtSplit(b, o, Int(|raw| + 1), [actual] + raw);
    AtSplit(b, o + 4, [actual], raw);
    GetIntAt(b, o, |raw| + 1);
    GetByteAt(b, o + 4, actual);
    GetDispatchedAt(decode, actual, b, o + 5, p);
    GetTypedReads(decode, isCall, t, b, o, actual, |raw|, Got(Shown(decode, actual, p), o + 5 + |raw|));
  }

  lemma {:induction false} GetTypedCellAt(decode: bool, isCall: bool, t: byte, b: seq<byte>, o: nat, c: Cell)
    requires Typed(isCall, t) && FitsCell(true, t, c) && At(b, o, EncodeCell(true, t, c))
    ensures GetCell(PerColumn, isCall, t, decode, b, o) ==
            Got(ShownCell(decode, true, t, c), o + |EncodeCell(true, t, c)|)
  {
    hide At, GetCell, EncodePayload, FitsPayload, Shown, Typed, Int;
    if c.Filled? {
      GetTypedFilledAt(decode, isCall, t, b, o, c.t, c.p);
    } else {
      GetTypedNullAt(decode, isCall, t, b, o, c);
    }
  }

  lemma {:induction false} GetPlainCellAt(decode: bool, isCall: bool, t: byte, b: seq<byte>, o: nat, c: Cell)
    requires !Typed(isCall, t) && FitsCell(false, t, c) && At(b, o, EncodeCell(false, t, c))
    ensures GetCell(PerColumn, isCall, t, decode, b, o) ==
            Got(ShownCell(decode, false, t, c), o + |EncodeCell(false, t, c)|)
  {
    hide At, GetInt, GetTyped, EncodePayload, FitsPayload, Shown;
    match c {
      case Null(size) => GetIntAt(b, o, size);
      case Filled(actual, p) =>
        var raw := EncodePayload(t, p);
        AtSplit(b, o, Int(|raw|), raw);
        GetIntAt(b, o, |raw|);
        GetValueAt(decode, t, b, o + 4, p);
    }
  }

  lemma {:induction false} GetCellAt(decode: bool, isCall: bool, t: byte, b: seq<byte>, o: nat, c: Cell)
    requires FitsCell(Typed(isCall, t), t, c) && At(b, o, EncodeCell(Typed(isCall, t), t, c))
    ensures GetCell(PerColumn, isCall, t, decode, b, o) ==
            Got(ShownCell(decode, Typed(isCall, t), t, c), o + |EncodeCell(Typed(isCall, t), t, c)|)
  {
    hide GetCell, FitsCell, EncodeCell, ShownCell;
    if Typed(isCall, t) { GetTypedCellAt(decode, isCall, t, b, o, c); } else { GetPlainCellAt(decode, isCall, t, b, o, c); }
  }

  lemma {:induction false} GetCellsCons(decode: bool, isCall: bool, types: seq<byte>, cells: seq<Cell>,
                                        b: seq<byte>, o: nat, mid: nat, end: nat)
    requires types != [] && FitsCells(isCall, types, cells)
    requires GetCell(PerColumn, isCall, types[0], decode, b, o) ==
             Got(ShownCell(decode, Typed(isCall, types[0]), types[0], cells[0]), mid)
    requires GetCells(PerColumn, isCall, types[1..], decode, b, mid) ==
             Got(ShownCells(decode, isCall, types[1..], cells[1..]), end)
    ensures GetCells(PerColumn, isCall, types, decode, b, o) == Got(ShownCells(decode, isCall, types, cells), end)
  {
    hide GetCell, ShownCell, FitsCell;
  }

  lemma {:induction false} GetCellsNil(decode: bool, isCall: bool, cells: seq<Cell>, b: seq<byte>, o: nat)
    requires FitsCells(isCall, [], cells)
    ensures GetCells(PerColumn, isCall, [], decode, b, o) == Got([], o)
    ensures EncodeCells(isCall, [], cells) == [] && ShownCells(decode, isCall, [], cells) == []
  {
  }

  lemma {:induction false} GetRowsNil(decode: bool, isCall: bool, types: seq<byte>, b: seq<byte>, o: nat)
    ensures FitsRows(isCall, types, [])
    ensures GetRows(PerColumn, isCall, types, decode, b, o, 0) == Got([], o)
    ensures EncodeRows(isCall, types, []) == [] && ShownRows(decode, isCall, types, []) == []
  {
  }

  lemma {:induction false} EncodeCellsCons(isCall: bool, types: seq<byte>, cells: seq<Cell>)
    requires types != [] && FitsCells(isCall, types, cells)
    ensures FitsCell(Typed(isCall, types[0]), types[0], cells[0]) && FitsCells(isCall, types[1..], cells[1..])
    ensures |cells| == |types|
    ensures EncodeCells(isCall, types, cells) ==
            EncodeCell(Typed(isCall, types[0]), types[0], cells[0]) + EncodeCells(isCall, types[1..], cells[1..])
  {
  }

  lemma {:induction false} EncodeRowsCons(isCall: bool, types: seq<byte>, rows: seq<Row>)
    requires rows != [] && FitsRows(isCall, types, rows)
    ensures FitsRow(isCall, types, rows[0]) && FitsRows(isCall, types, rows[1..])
    ensures EncodeRows(isCall, types, rows) == EncodeRow(isCall, types, rows[0]) + EncodeRows(isCall, types, rows[1..])
  {
  }

  lemma {:induction false} GetCellsAt(decode: bool, isCall: bool, types: seq<byte>, cells: seq<Cell>, b: seq<byte>, o: nat)
    requires FitsCells(isCall, types, cells) && At(b, o, EncodeCells(isCall, types, cells))
    ensures GetCells(PerColumn, isCall, types, decode, b, o) ==
            Got(ShownCells(decode, isCall, types, cells), o + |EncodeCells(isCall, types, cells)|)
    decreases |types|
  {
    hide *;
    if types == [] {
      GetCellsNil(decode, isCall, cells, b, o);
    } else {
      EncodeCellsCons(isCall, types, cells);
      var e := EncodeCell(Typed(isCall, types[0]), types[0], cells[0]);
      var rest := EncodeCells(isCall, types[1..], cells[1..]);
      AtSplit(b, o, e, rest);
      GetCellAt(decode, isCall, types[0], b, o, cells[0]);
      GetCellsAt(decode, isCall, types[1..], cells[1..], b, o + |e|);
      GetCellsCons(decode, isCall, types, cells, b, o, o + |e|, o + |e| + |rest|);
    }
  }

  lemma {:induction false} GetRowAt(decode: bool, isCall: bool, types: seq<byte>, r: Row, b: seq<byte>, o: nat)
    requires FitsRow(isCall, types, r) && At(b, o, EncodeRow(isCall, types, r))
    ensures GetRow(PerColumn, isCall, types, decode, b, o) ==
            Got(ShownCells(decode, isCall, types, r.cells), o + |EncodeRow(isCall, types, r)|)
  {
    hide At, GetInt, GetCells, FitsCells, EncodeCells, ShownCells;
    var cells := EncodeCells(isCall, types, r.cells);
    AtSplit(b, o, Int(r.index), r.oid + cells);
    AtSplit(b, o + 4, r.oid, cells);
    GetIntAt(b, o, r.index);
    GetCellsAt(decode, isCall, types, r.cells, b, o + 12);
  }

  lemma {:induction false} GetRowsCons(decode: bool, isCall: bool, types: seq<byte>, rows: seq<Row>,
                                       b: seq<byte>, o: nat, mid: nat, end: nat)
    requires rows != [] && FitsRows(isCall, types, rows)
    requires GetRow(PerColumn, isCall, types, decode, b, o) == Got(ShownCells(decode, isCall, types, rows[0].cells), mid)
    requires GetRows(PerColumn, isCall, types, decode, b, mid, |rows| - 1) ==
             Got(ShownRows(decode, isCall, types, rows[1..]), end)
    ensures GetRows(PerColumn, isCall, types, decode, b, o, |rows|) == Got(ShownRows(decode, isCall, types, rows), end)
  {
    hide GetRow, ShownCells, FitsRow;
  }

  lemma {:induction false} GetRowsAt(decode: bool, isCall: bool, types: seq<byte>, rows: seq<Row>, b: seq<byte>, o: nat)
    requires FitsRows(isCall, types, rows) && At(b, o, EncodeRows(isCall, types, rows))
    ensures GetRows(PerColumn, isCall, types, decode, b, o, |rows|) ==
            Got(ShownRows(decode, isCall, types, rows), o + |EncodeRows(isCall, types, rows)|)
    decreases |rows|
  {
    hide *;
    if rows == [] {
      GetRowsNil(decode, isCall, types, b, o);
    } else {
      EncodeRowsCons(isCall, types, rows);
      var e := EncodeRow(isCall, types, rows[0]);
      var rest := EncodeRows(isCall, types, rows[1..]);
      AtSplit(b, o, e, rest);
      GetRowAt(decode, isCall, types, rows[0], b, o);
      GetRowsAt(decode, isCall, types, rows[1..], b, o + |e|);
      GetRowsCons(decode, isCall, types, rows, b, o, o + |e|, o + |e| + |rest|);
    }
  }

  /** Reading encoded rows gives them back and ends exactly where they end, on either path. */
  lemma {:induction false} GetRowDataAt(decode: bool, isCall: bool, types: seq<byte>, rows: seq<Row>, b: seq<byte>, o: nat)
    requires FitsRows(isCall, types, rows) && At(b, o, EncodeRows(isCall, types, rows))
    ensures GetRowData(isCall, types, decode, b, o, |rows|) ==
            Got(ShownRows(decode, isCall, types, rows), o + |EncodeRows(isCall, types, rows)|)
  {
    EachColumnByItsOwnType(isCall, types, decode, b, o, |rows|);
    GetRowsAt(decode, isCall, types, rows, b, o);
  }

  /** A cell that holds a decoded collection. */
  predicate IsCollection(c: Cell) { c.Filled? && c.p.Elements? }

  /** Turning collection decoding on or off moves no column and changes no other value. */
  lemma DecodingIsLocal(isCall: bool, types: seq<byte>, rows: seq<Row>, b: seq<byte>, o: nat, i: nat, j: nat)
    requires FitsRows(isCall, types, rows) && At(b, o, EncodeRows(isCall, types, rows))
    requires i < |rows| && j < |types|
    ensures var on := GetRowData(isCall, types, true, b, o, |rows|);
            var off := GetRowData(isCall, types, false, b, o, |rows|);
            && on.Got? && off.Got? && on.off == off.off
            && |on.value| == |off.value| == |rows| && |on.value[i]| == |off.value[i]| == |types|
            && (!IsCollection(rows[i].cells[j]) ==> on.value[i][j] == off.value[i][j])
            && (IsCollection(rows[i].cells[j]) ==>
                 var c := rows[i].cells[j];
                 off.value[i][j] == One(Raw(EncodePayload(c.t, c.p))) && on.value[i][j] == Shown(true, c.t, c.p))
  {
    hide *;
    GetRowDataAt(true, isCall, types, rows, b, o);
    GetRowDataAt(false, isCall, types, rows, b, o);
    FitsAt(isCall, types, rows, i, j);
    ShownCellToggle(Typed(isCall, types[j]), types[j], rows[i].cells[j]);
  }

  lemma FitsAt(isCall: bool, types: seq<byte>, rows: seq<Row>, i: nat, j: nat)
    requires FitsRows(isCall, types, rows) && i < |rows| && j < |types|
    ensures FitsRow(isCall, types, rows[i]) && FitsCells(isCall, types, rows[i].cells)
    ensures |rows[i].cells| == |types| && FitsCell(Typed(isCall, types[j]), types[j], rows[i].cells[j])
    ensures rows[i].cells[j].Filled? ==> FitsPayload(rows[i].cells[j].t, rows[i].cells[j].p)
  {
  }

  lemma ShownCellToggle(typed: bool, t: byte, c: Cell)
    requires FitsCell(typed, t, c)
    ensures !IsCollection(c) ==> ShownCell(true, typed, t, c) == ShownCell(false, typed, t, c)
    ensures IsCollection(c) ==>
            && FitsPayload(c.t, c.p) && c.p.Elements?
            && ShownCell(false, typed, t, c) == One(Raw(EncodePayload(c.t, c.p)))
            && ShownCell(true, typed, t, c) == Shown(true, c.t, c.p)
  {
  }
}
