/** The named-range fill of fill_excel_template. For each extracted key, in
    insertion order, the workbook's defined name of that key is looked up and the
    key's value is written into every (sheet, coordinate) destination of that
    name. Whatever goes wrong for one key (no such defined name, a destination on
    a sheet the workbook lacks, a write the spreadsheet library refuses) turns
    into one warning "Could not map: <key>", and the loop goes on with the next
    key. The write loop of a key stops at its first failing destination; the
    destinations written before it stay written. */
module Template {
  import opened Values

  /** One destination of a defined name: a sheet title and a coordinate as the
      name spells it (absolute, as in "$B$5", or relative, as in "B5"). */
  datatype Dest = Dest(title: string, coord: string)

  /** A cell of the workbook: a sheet title and the position a coordinate
      resolves to. Several spellings of a coordinate resolve to one position. */
  datatype Cell = Cell(sheet: string, position: string)

  /** The parts of a workbook the fill reads but never changes. */
  datatype Layout = Layout(titles: set<string>, names: map<string, seq<Dest>>)

  /** What the spreadsheet library decides about a write, whose rules are not
      visible here: whether it accepts a value at a destination (which may
      depend on the sheet: a merged cell is read-only on its own sheet only),
      and the position a coordinate resolves to ("$B$5", "B5" and "b5" resolve
      alike). */
  datatype Library = Library(accepts: (Dest, Value) -> bool, canon: string -> string)

  /** The sheet that fill_excel_template opens before it writes anything. */
  const ModelSheet: string := "Model"

  /** The text before the key in the warning for a key that could not be mapped. */
  const WarningPrefix: string := "Could not map: "

  /** The warning shown for a key that could not be mapped. */
  function Warning(key: string): string
  {
    WarningPrefix + key
  }

  /** The cell `wb[d.title][d.coord]` addresses. */
  function CellOf(lib: Library, d: Dest): Cell
  {
    Cell(d.title, lib.canon(d.coord))
  }

  /** The cells a sequence of destinations addresses, in order. */
  function Targets(lib: Library, ds: seq<Dest>): seq<Cell>
  {
    seq(|ds|, i requires 0 <= i < |ds| => CellOf(lib, ds[i]))
  }

  /** `wb[d.title][d.coord] = v` succeeds: the sheet exists and the library
      takes the value at that coordinate. */
  predicate CanWrite(layout: Layout, lib: Library, d: Dest, v: Value)
  {
    d.title in layout.titles && lib.accepts(d, v)
  }

  /** The cells after a write loop, and whether the loop ran to its end. */
  datatype Outcome = Outcome(cells: map<Cell, Value>, completed: bool)

  /** The inner loop over a key's destinations: writes v to each in turn and
      stops at the first one that raises. */
  function WriteDests(cells: map<Cell, Value>, layout: Layout, lib: Library,
                      dests: seq<Dest>, v: Value): Outcome
    decreases |dests|
  {
    if dests == [] then Outcome(cells, true)
    else if !CanWrite(layout, lib, dests[0], v) then Outcome(cells, false)
    else WriteDests(cells[CellOf(lib, dests[0]) := v], layout, lib, dests[1..], v)
  }

  /** The try block for one key: look up its defined name, then write. */
  function MapKey(cells: map<Cell, Value>, layout: Layout, lib: Library,
                  key: string, v: Value): Outcome
  {
    if key in layout.names then WriteDests(cells, layout, lib, layout.names[key], v)
    else Outcome(cells, false)
  }

  /** The cells and the warnings after the loop over all keys. */
  datatype Report = Report(cells: map<Cell, Value>, warnings: seq<string>)

  /** The loop over the extracted pairs, in insertion order. */
  function FillKeys(cells: map<Cell, Value>, layout: Layout, lib: Library,
                    data: seq<(string, Value)>): Report
    decreases |data|
  {
    if data == [] then Report(cells, [])
    else
      var o := MapKey(cells, layout, lib, data[0].0, data[0].1);
      var rest := FillKeys(o.cells, layout, lib, data[1..]);
      Report(rest.cells, (if o.completed then [] else [Warning(data[0].0)]) + rest.warnings)
  }

  // ---- Reference definitions, independent of the loops above ----

  /** How many leading destinations can be written before the first that fails. */
  function WritablePrefix(layout: Layout, lib: Library, dests: seq<Dest>, v: Value): (n: nat)
    ensures n <= |dests|
    ensures forall i :: 0 <= i < n ==> CanWrite(layout, lib, dests[i], v)
    ensures n < |dests| ==> !CanWrite(layout, lib, dests[n], v)
  {
    if dests == [] || !CanWrite(layout, lib, dests[0], v) then 0
    else 1 + WritablePrefix(layout, lib, dests[1..], v)
  }

  /** The cells with every cell in cs holding v and every other cell as it was. */
  function Assign(cells: map<Cell, Value>, cs: seq<Cell>, v: Value): map<Cell, Value>
  {
    map c | c in cells.Keys + (set e | e in cs) :: if c in cs then v else cells[c]
  }

  /** A key's try block runs to its end: it has a defined name and every
      destination of it can be written. */
  predicate Completes(layout: Layout, lib: Library, key: string, v: Value)
  {
    key in layout.names && forall d :: d in layout.names[key] ==> CanWrite(layout, lib, d, v)
  }

  /** The cells a key actually writes: those of the writable prefix of its
      defined name's destinations, or none when it has no defined name. */
  function Written(layout: Layout, lib: Library, key: string, v: Value): seq<Cell>
  {
    if key in layout.names then
      Targets(lib, layout.names[key][..WritablePrefix(layout, lib, layout.names[key], v)])
    else []
  }

  /** The value of the last pair that writes cell c, if any does. */
  function LastWrite(layout: Layout, lib: Library, data: seq<(string, Value)>, c: Cell): Option<Value>
  {
    if data == [] then None
    else match LastWrite(layout, lib, data[1..], c)
      case Some(v) => Some(v)
      case None =>
        if c in Written(layout, lib, data[0].0, data[0].1) then Some(data[0].1) else None
  }

  /** The keys whose try block raises, in the order of the pairs. */
  function FailingKeys(layout: Layout, lib: Library, data: seq<(string, Value)>): seq<string>
  {
    if data == [] then []
    else (if Completes(layout, lib, data[0].0, data[0].1) then [] else [data[0].0])
         + FailingKeys(layout, lib, data[1..])
  }

  /** No element occurs twice. */
  predicate NoRepeats(s: seq<string>)
  {
    forall i, j :: 0 <= i < j < |s| ==> s[i] != s[j]
  }

  /** No key occurs twice, as in the items of a Python dict. */
  predicate DistinctKeys(data: seq<(string, Value)>)
  {
    forall i, j :: 0 <= i < j < |data| ==> data[i].0 != data[j].0
  }

  // ---- Properties ----

  lemma AssignPrepend(cells: map<Cell, Value>, c: Cell, cs: seq<Cell>, v: Value)
    ensures Assign(cells[c := v], cs, v) == Assign(cells, [c] + cs, v)
  {
  }

  /** The write loop of one key leaves the cells of the writable prefix of its
      destinations holding the value and every other cell as it was; it
      completes exactly when all destinations are writable. */
  lemma {:induction false} WriteDestsWritesPrefix(cells: map<Cell, Value>, layout: Layout, lib: Library,
                                                  dests: seq<Dest>, v: Value)
    ensures WriteDests(cells, layout, lib, dests, v)
         == Outcome(Assign(cells, Targets(lib, dests[..WritablePrefix(layout, lib, dests, v)]), v),
                    WritablePrefix(layout, lib, dests, v) == |dests|)
    decreases |dests|
  {
    var n := WritablePrefix(layout, lib, dests, v);
    if dests == [] || !CanWrite(layout, lib, dests[0], v) {
      assert Targets(lib, dests[..n]) == [];
      assert Assign(cells, [], v) == cells;
    } else {
      var c := CellOf(lib, dests[0]);
      WriteDestsWritesPrefix(cells[c := v], layout, lib, dests[1..], v);
      AssignPrepend(cells, c, Targets(lib, dests[1..][..n - 1]), v);
      assert [c] + Targets(lib, dests[1..][..n - 1]) == Targets(lib, dests[..n]);
    }
  }

  /** A key's try block runs to its end exactly when the key has a defined name
      and every destination of it is writable. */
  lemma MapKeyCompletes(cells: map<Cell, Value>, layout: Layout, lib: Library, key: string, v: Value)
    ensures MapKey(cells, layout, lib, key, v).completed <==> Completes(layout, lib, key, v)
    ensures MapKey(cells, layout, lib, key, v).cells == Assign(cells, Written(layout, lib, key, v), v)
  {
    if key in layout.names {
      var dests := layout.names[key];
      WriteDestsWritesPrefix(cells, layout, lib, dests, v);
      if WritablePrefix(layout, lib, dests, v) == |dests| {
        assert forall d :: d in dests ==> CanWrite(layout, lib, d, v);
      }
    } else {
      assert Assign(cells, [], v) == cells;
    }
  }

  /** The warnings name the failing keys, one each, in order. */
  lemma {:induction false} FillWarnings(cells: map<Cell, Value>, layout: Layout, lib: Library,
                                        data: seq<(string, Value)>)
    ensures var r := FillKeys(cells, layout, lib, data);
            var failing := FailingKeys(layout, lib, data);
            |r.warnings| == |failing| <= |data| &&
            forall i :: 0 <= i < |failing| ==> r.warnings[i] == Warning(failing[i])
    decreases |data|
  {
    if data != [] {
      var o := MapKey(cells, layout, lib, data[0].0, data[0].1);
      MapKeyCompletes(cells, layout, lib, data[0].0, data[0].1);
      FillWarnings(o.cells, layout, lib, data[1..]);
    }
  }

  /** Every failing key is the key of some pair. */
  lemma {:induction false} FailingKeysFromData(layout: Layout, lib: Library, data: seq<(string, Value)>)
    ensures forall k :: k in FailingKeys(layout, lib, data) ==> exists i :: 0 <= i < |data| && data[i].0 == k
    decreases |data|
  {
    if data != [] {
      FailingKeysFromData(layout, lib, data[1..]);
      forall k | k in FailingKeys(layout, lib, data)
        ensures exists i :: 0 <= i < |data| && data[i].0 == k
      {
        if k != data[0].0 {
          assert k in FailingKeys(layout, lib, data[1..]);
          var i :| 0 <= i < |data[1..]| && data[1..][i].0 == k;
          assert data[i + 1].0 == k;
        }
      }
    }
  }

  /** Pairs with distinct keys fail under distinct keys. */
  lemma {:induction false} FailingKeysDistinct(layout: Layout, lib: Library, data: seq<(string, Value)>)
    requires DistinctKeys(data)
    ensures NoRepeats(FailingKeys(layout, lib, data))
    decreases |data|
  {
    if data != [] {
      var rest := FailingKeys(layout, lib, data[1..]);
      FailingKeysDistinct(layout, lib, data[1..]);
      FailingKeysFromData(layout, lib, data[1..]);
      var f := FailingKeys(layout, lib, data);
      if |f| > |rest| {
        assert f == [data[0].0] + rest;
        assert data[0].0 !in rest;
        forall i, j | 0 <= i < j < |f|
          ensures f[i] != f[j]
        {
          assert f[j] == rest[j - 1];
          if i > 0 {
            assert f[i] == rest[i - 1];
          }
        }
      }
    }
  }

  /** For the items of a dict, no key is warned about twice. */
  lemma WarningsDistinct(cells: map<Cell, Value>, layout: Layout, lib: Library, data: seq<(string, Value)>)
    requires DistinctKeys(data)
    ensures NoRepeats(FillKeys(cells, layout, lib, data).warnings)
  {
    var w := FillKeys(cells, layout, lib, data).warnings;
    var f := FailingKeys(layout, lib, data);
    FillWarnings(cells, layout, lib, data);
    FailingKeysDistinct(layout, lib, data);
    forall i, j | 0 <= i < j < |w|
      ensures w[i] != w[j]
    {
      assert Warning(f[i])[|WarningPrefix|..] == f[i];
      assert Warning(f[j])[|WarningPrefix|..] == f[j];
    }
  }

  /** Every cell ends up holding the value of the last pair that writes it, and
      a cell no pair writes keeps its loaded value. */
  lemma {:induction false} FillCells(cells: map<Cell, Value>, layout: Layout, lib: Library,
                                     data: seq<(string, Value)>, c: Cell)
    ensures var r := FillKeys(cells, layout, lib, data);
            var last := LastWrite(layout, lib, data, c);
            (c in r.cells <==> c in cells || last.Some?) &&
            (c in r.cells ==> r.cells[c] == if last.Some? then last.value else cells[c])
    decreases |data|
  {
    if data != [] {
      var o := MapKey(cells, layout, lib, data[0].0, data[0].1);
      MapKeyCompletes(cells, layout, lib, data[0].0, data[0].1);
      FillCells(o.cells, layout, lib, data[1..], c);
    }
  }

  /** Processing a batch is processing its first part, then its second part on
      the cells the first part left: no key aborts the keys after it. */
  lemma {:induction false} FillSplits(cells: map<Cell, Value>, layout: Layout, lib: Library,
                                      a: seq<(string, Value)>, b: seq<(string, Value)>)
    ensures var first := FillKeys(cells, layout, lib, a);
            var second := FillKeys(first.cells, layout, lib, b);
            FillKeys(cells, layout, lib, a + b) == Report(second.cells, first.warnings + second.warnings)
    decreases |a|
  {
    if a == [] {
      assert a + b == b;
    } else {
      var o := MapKey(cells, layout, lib, a[0].0, a[0].1);
      assert (a + b)[0] == a[0];
      assert (a + b)[1..] == a[1..] + b;
      FillSplits(o.cells, layout, lib, a[1..], b);
    }
  }

  /** A key without a defined name changes no cell and adds exactly the one
      warning for it, and the keys after it are processed as if it were absent. */
  lemma MissingNameWarnsOnce(cells: map<Cell, Value>, layout: Layout, lib: Library,
                             before: seq<(string, Value)>, key: string, v: Value,
                             after: seq<(string, Value)>)
    requires key !in layout.names
    ensures var first := FillKeys(cells, layout, lib, before);
            var rest := FillKeys(first.cells, layout, lib, after);
            FillKeys(cells, layout, lib, before + [(key, v)] + after)
              == Report(rest.cells, first.warnings + [Warning(key)] + rest.warnings)
  {
    var first := FillKeys(cells, layout, lib, before);
    FillSplits(cells, layout, lib, before, [(key, v)] + after);
    assert before + [(key, v)] + after == before + ([(key, v)] + after);
    assert ([(key, v)] + after)[1..] == after;
  }

  /** The pair at index i writes cell c, and no pair after it does: the last
      write to c is i's value. So a key whose writes all succeed leaves its
      value in every destination unless a later key overwrites it, and of two
      keys that share a cell the later one wins, however each spells it. */
  lemma {:induction false} LastWriteAt(layout: Layout, lib: Library, data: seq<(string, Value)>,
                                       i: nat, c: Cell)
    requires i < |data|
    requires c in Written(layout, lib, data[i].0, data[i].1)
    requires LastWrite(layout, lib, data[i + 1..], c) == None
    ensures LastWrite(layout, lib, data, c) == Some(data[i].1)
  {
    if i > 0 {
      assert data[1..][i - 1] == data[i];
      assert data[1..][i..] == data[i + 1..];
      LastWriteAt(layout, lib, data[1..], i - 1, c);
    }
  }

  /** When every destination of a key is writable, the key writes the cell of
      each of them. */
  lemma CompletedKeyWritesAll(layout: Layout, lib: Library, key: string, v: Value, d: Dest)
    requires Completes(layout, lib, key, v)
    requires d in layout.names[key]
    ensures CellOf(lib, d) in Written(layout, lib, key, v)
  {
    var dests := layout.names[key];
    var i :| 0 <= i < |dests| && dests[i] == d;
    assert dests[..|dests|] == dests;
    assert Written(layout, lib, key, v)[i] == CellOf(lib, d);
  }

  /** A destination spelled "$B$5" that resolves to the loaded cell B5
      overwrites that cell; no second cell appears. */
  lemma AbsoluteReferenceHitsLoadedCell(lib: Library)
    requires lib.canon("$B$5") == lib.canon("B5")
    requires lib.accepts(Dest("Model", "$B$5"), Int(100))
    ensures FillKeys(map[Cell("Model", lib.canon("B5")) := Int(0)],
                     Layout({"Model"}, map["Rev" := [Dest("Model", "$B$5")]]),
                     lib, [("Rev", Int(100))]).cells
         == map[Cell("Model", lib.canon("B5")) := Int(100)]
  {
  }

  /** A write refused on one sheet only (a merged cell on "Model") comes
      after a write that succeeded on another sheet: the first write stays and
      the key gets its warning. */
  lemma RefusalOnOneSheetKeepsEarlierWrite(lib: Library, v: Value)
    requires lib.accepts(Dest("Inputs", "B5"), v)
    requires !lib.accepts(Dest("Model", "B5"), v)
    ensures FillKeys(map[], Layout({"Inputs", "Model"}, map["Rev" := [Dest("Inputs", "B5"), Dest("Model", "B5")]]),
                     lib, [("Rev", v)])
         == Report(map[Cell("Inputs", lib.canon("B5")) := v], [Warning("Rev")])
  {
  }

  /** How a call of fill_excel_template ends. */
  datatype FillStatus =
    | Saved               // the workbook was filled and saved
    | MissingModelSheet   // wb["Model"] raised before the loop
    | NotAnObject         // the decoded reply has no items() to walk

  /** A workbook: the cell values of all sheets, the sheet titles and the
      defined names. Only the cells change. */
  class Workbook {
    var cells: map<Cell, Value>
    const titles: set<string>
    const names: map<string, seq<Dest>>

    /** Every cell lies on one of the workbook's sheets. */
    ghost predicate Valid()
      reads this
    {
      forall c :: c in cells ==> c.sheet in titles
    }

    function Shape(): Layout
    {
      Layout(titles, names)
    }

    /** A workbook as loaded from the template file. */
    constructor Load(cells0: map<Cell, Value>, titles0: set<string>, names0: map<string, seq<Dest>>)
      requires forall c :: c in cells0 ==> c.sheet in titles0
      ensures Valid()
      ensures cells == cells0 && titles == titles0 && names == names0
    {
      cells := cells0;
      titles := titles0;
      names := names0;
    }

    /** The try block for one key: the lookup of its defined name, then the
        write loop over its destinations, which stops at the first failure. */
    method TryMapKey(key: string, v: Value, lib: Library) returns (completed: bool)
      requires Valid()
      modifies this
      ensures Valid()
      ensures Outcome(cells, completed) == MapKey(old(cells), Shape(), lib, key, v)
    {
      if key !in names {
        return false;
      }
      var dests := names[key];
      var i := 0;
      completed := true;
      while i < |dests| && completed
        invariant Valid()
        invariant i <= |dests|
        invariant completed ==>
          MapKey(old(cells), Shape(), lib, key, v) == WriteDests(cells, Shape(), lib, dests[i..], v)
        invariant !completed ==> MapKey(old(cells), Shape(), lib, key, v) == Outcome(cells, false)
        decreases |dests| - i, completed
      {
        var d := dests[i];
        if d.title in titles && lib.accepts(d, v) {
          cells := cells[CellOf(lib, d) := v];
          assert dests[i..][1..] == dests[i + 1..];
          i := i + 1;
        } else {
          completed := false;
        }
      }
    }

    /** fill_excel_template on a loaded workbook and the decoded reply.
        Without a sheet titled "Model" it raises before any write; a reply
        that is not a JSON object raises at items(), also before any write.
        Otherwise every pair is mapped in order and the workbook is saved. */
    method FillTemplate(extracted: Value, lib: Library) returns (status: FillStatus, warnings: seq<string>)
      requires Valid()
      requires forall c :: c in cells ==> lib.canon(c.position) == c.position
      modifies this
      ensures Valid()
      ensures status == if ModelSheet !in titles then MissingModelSheet
                        else if !extracted.Dict? then NotAnObject
                        else Saved
      ensures status != Saved ==> cells == old(cells) && warnings == []
      ensures status == Saved ==> Report(cells, warnings) == FillKeys(old(cells), Shape(), lib, extracted.entries)
    {
      if ModelSheet !in titles {
        return MissingModelSheet, [];
      }
      if !extracted.Dict? {
        return NotAnObject, [];
      }
      var data := extracted.entries;
      status := Saved;
      warnings := [];
      var k := 0;
      while k < |data|
        invariant Valid()
        invariant k <= |data|
        invariant var rest := FillKeys(cells, Shape(), lib, data[k..]);
                  FillKeys(old(cells), Shape(), lib, data) == Report(rest.cells, warnings + rest.warnings)
      {
        var (key, v) := data[k];
        assert data[k..][1..] == data[k + 1..];
        var completed := TryMapKey(key, v, lib);
        if !completed {
          warnings := warnings + [Warning(key)];
        }
        k := k + 1;
      }
    }
  }
}
