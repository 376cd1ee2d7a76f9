/** The fetch methods of a cursor as the source writes them (pycubrid/cursor.py), each proved
    against the function in Fetching that says what it does. */
module ResultCursor {
  import opened Basics
  import opened Fetching

  /** The other end: the result it is asked for, and what it will do next. */
  class Server {
    const result: seq<Tuple>
    var script: seq<Answer>

    constructor (result: seq<Tuple>, script: seq<Answer>)
      ensures this.result == result && this.script == script
    {
      this.result, this.script := result, script;
    }
  }

  /** A call on a closed cursor, or on one without a result set, is refused. */
  datatype Outcome = Refused | Handed(h: Handed)

  class Cursor {
    const server: Server
    var closed: bool
    var hasDescription: bool
    var queryHandle: Option<int>
    var rows: seq<Tuple>
    var rowIndex: nat
    var totalTupleCount: int
    var fetchSize: nat
    var arraySize: nat

    constructor (server: Server, handle: int, inline: nat, fetchSize: nat)
      requires inline <= |server.result|
      ensures this.server == server && Valid() && !closed && hasDescription
      ensures View() == Fresh(server.result, inline) && this.fetchSize == fetchSize && arraySize == 1
    {
      this.server, closed, hasDescription, queryHandle := server, false, true, Some(handle);
      rows, rowIndex, totalTupleCount := server.result[..inline], 0, |server.result|;
      this.fetchSize, arraySize := fetchSize, 1;
    }

    ghost function View(): Buffer
      reads this
    {
      Buffer(rows, rowIndex, totalTupleCount, queryHandle.Some?)
    }

    ghost predicate Valid()
      reads this
    {
      Faithful(server.result, View())
    }

    /** A request is sent only for the row after the last buffered one. */
    method FetchMoreRows() returns (m: More)
      requires Valid() && rowIndex == |rows|
      modifies this`rows, this`queryHandle, server
      ensures Valid() && (m, View(), server.script) == FetchMore(server.result, fetchSize, old(View()), old(server.script))
    {
      if queryHandle.None? { return NoMore; }
      if rowIndex >= totalTupleCount { return NoMore; }
      if server.script == [] { return Raised; }
      var answer := server.script[0];
      server.script := server.script[1..];
      match answer {
        case Failure(lost) =>
          if lost { queryHandle := None; }
          return Raised;
        case Chunk(n) =>
          var received := ServerRows(server.result, rowIndex, fetchSize, n);
          if received == [] { return NoMore; }
          rows := rows + received;
          return Added;
      }
    }

    method FetchOne() returns (r: Outcome)
      requires Valid()
      modifies this`rows, this`queryHandle, this`rowIndex, server
      ensures Valid()
      ensures if closed || !hasDescription then r == Refused && View() == old(View()) && server.script == old(server.script)
              else r.Handed? && (r.h, View(), server.script) == Do(server.result, fetchSize, old(View()), old(server.script), Call.One)
    {
      if closed || !hasDescription { return Refused; }
      if rowIndex >= |rows| {
        var m := FetchMoreRows();
        if m.Raised? { return Handed(Failed); }
        if m.NoMore? { return Handed(Rows([])); }
      }
      r := Handed(Rows([rows[rowIndex]]));
      rowIndex := rowIndex + 1;
    }

    method FetchMany(size: Option<int>) returns (r: Outcome)
      requires Valid()
      modifies this`rows, this`queryHandle, this`rowIndex, server
      ensures Valid()
      ensures var wanted := if size.Some? then size.value else arraySize;
              if closed || !hasDescription then r == Refused && View() == old(View()) && server.script == old(server.script)
              else r.Handed? && (r.h, View(), server.script) == Do(server.result, fetchSize, old(View()), old(server.script), Many(wanted))
    {
      if closed || !hasDescription { return Refused; }
      var taken: seq<Tuple> := [];
      var remaining := if size.Some? then size.value else arraySize;
      ghost var goal := Fetching.FetchMany(server.result, fetchSize, View(), server.script, taken, remaining);
      while remaining > 0
        invariant Valid()
        invariant Fetching.FetchMany(server.result, fetchSize, View(), server.script, taken, remaining) == goal
      {
        var available := |rows| - rowIndex;
        if available <= 0 {
          var m := FetchMoreRows();
          if m.Raised? { return Handed(Failed); }
          if m.NoMore? { break; }
          available := |rows| - rowIndex;
        }
        var take := if available <= remaining then available else remaining;
        var end := rowIndex + take;
        taken := taken + rows[rowIndex..end];
        rowIndex := end;
        remaining := remaining - take;
      }
      return Handed(Rows(taken));
    }

    method FetchAll() returns (r: Outcome)
      requires Valid()
      modifies this`rows, this`queryHandle, this`rowIndex, server
      ensures Valid()
      ensures if closed || !hasDescription then r == Refused && View() == old(View()) && server.script == old(server.script)
              else r.Handed? && (r.h, View(), server.script) == Do(server.result, fetchSize, old(View()), old(server.script), All)
    {
      if closed || !hasDescription { return Refused; }
      var taken: seq<Tuple> := [];
      ghost var goal := Fetching.FetchAll(server.result, fetchSize, View(), server.script, taken);
      while true
        invariant Valid()
        invariant Fetching.FetchAll(server.result, fetchSize, View(), server.script, taken) == goal
        decreases |server.script|
      {
        ghost var before := View();
        ghost var had := taken;
        var available := |rows| - rowIndex;
        if available > 0 {
          taken := taken + rows[rowIndex..];
          rowIndex := |rows|;
        }
        assert View() == before.(index := |before.rows|);
        assert taken == had + before.rows[before.index..];
        var m := FetchMoreRows();
        if m.Raised? { return Handed(Failed); }
        if m.NoMore? { return Handed(Rows(taken)); }
      }
    }
  }
}
