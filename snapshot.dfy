/**
  What the wrapper's value reader and tree flattener produce, stated as
  functions of the document rather than of the cursor walk.

  `GetOf` is `get` applied to one cell. `CategorySnapshot`, `BlockSnapshot`
  and `DocumentSnapshot` are the results of `category_asdict`,
  `datablock_asdict` and `datablocks`: either the dictionaries, or the
  first exception met in traversal order.
*/
module Snapshot {
  import opened Status
  import opened Shape
  import opened Dispatch
  import opened LibCbf

  /** A Python value returned by `get`: None, a string, or a numpy array. */
  datatype PyValue = PyNone | PyStr(s: string) | PyArray(a: NdArray)

  /** The `(value, type)` pair of `get`. */
  datatype Got = Got(value: PyValue, tag: string)

  /** The category dictionary: "name", "columns", "columns~type", "values". */
  datatype CategoryDict = CategoryDict(
    name: string, columns: seq<string>, columnTypes: seq<string>, values: map<string, seq<PyValue>>)

  /** The datablock dictionary: "name", "categories". */
  datatype BlockDict = BlockDict(name: string, categories: seq<CategoryDict>)

  /** `get_typeofvalue` on a cell: `_get_str` of the tag, so "" when there is none. */
  function TypeTag(cell: Cell): (tag: string)
    ensures tag == "bnry" <==> cell.Binary? || (cell.Textual? && cell.kind == "bnry")
    ensures tag == "" <==> cell.Absent? || (cell.Textual? && cell.kind == "")
  {
    GetStr(0, TagOf(cell)).value
  }

  function ToPy(val: Option<string>): PyValue {
    match val
    case None => PyNone
    case Some(s) => PyStr(s)
  }

  /** The shape `get_arrayparameters` derives from a cell's parameters. */
  function ShapeOfParams(p: Params): seq<nat> {
    ShapeOf(p.dimslow, p.dimmid, p.dimfast, p.nelem)
  }

  /** `get_binary` on a cell: tag check, parameters, branch, codec read, count check. */
  function GetBinaryOf(cell: Cell): Result<NdArray> {
    if TypeTag(cell) != "bnry" then Failure(ValueError("Not a binary value"))
    else
      var (st, p) := ParamsOf(cell);
      if st != 0 then Failure(RuntimeError(st))
      else
        var shape := ShapeOfParams(p);
        var kind := ElementKind(p.elunsigned, p.elsigned);
        var (ret, elread) := ReadArray(cell, Product(shape));
        AcceptRead(kind, shape, ret, elread)
  }

  /** `get` on a cell. */
  function GetOf(cell: Cell): Result<Got> {
    var tag := TypeTag(cell);
    match ReaderFor(tag)
    case NoValue => Success(Got(PyNone, tag))
    case BinaryReader =>
      (match GetBinaryOf(cell)
       case Success(arr) => Success(Got(PyArray(arr), tag))
       case Failure(e) => Failure(e))
    case TextReader =>
      var (st, val) := ValueOf(cell);
      (match GetValue(st, val)
       case Success(v) => Success(Got(ToPy(v), tag))
       case Failure(e) => Failure(e))
  }

  /**
    `get` on a binary cell succeeds exactly when the codec reports status 0
    and delivers the product of the shape, and then yields an array of that
    shape whose element type is chosen unsigned, signed, real in that order.
  */
  lemma GetOfBinary(cell: Cell)
    requires cell.Binary?
    ensures var shape := ShapeOfParams(cell.params);
            && (GetOf(cell).Success? <==> cell.codecStatus == 0 && cell.available >= Product(shape))
            && (GetOf(cell).Success? ==>
                  GetOf(cell).value == Got(PyArray(NdArray(ElementKind(cell.params.elunsigned, cell.params.elsigned), shape)), "bnry"))
            && (GetOf(cell).Failure? ==> GetOf(cell).error == RuntimeError(cell.codecStatus))
  {
  }

  /**
    `get_binary` raises ValueError("Not a binary value") exactly when the
    cell's tag is not 'bnry'; past the tag check every exception is a
    RuntimeError.
  */
  lemma GetBinaryOfChecksTag(cell: Cell)
    ensures TypeTag(cell) != "bnry" <==> GetBinaryOf(cell) == Failure(ValueError("Not a binary value"))
    ensures TypeTag(cell) == "bnry" && GetBinaryOf(cell).Failure? ==> GetBinaryOf(cell).error.RuntimeError?
  {
  }

  /** `get` on a textual cell returns its literal with its tag; an empty tag reads as no value. */
  lemma GetOfTextual(kind: string, text: string)
    requires kind != "bnry"
    ensures kind == "" ==> GetOf(Textual(kind, text)) == Success(Got(PyNone, ""))
    ensures kind != "" ==> GetOf(Textual(kind, text)) == Success(Got(PyStr(text), kind))
  {
  }

  /** `get` returns `(None, '')` for a cell without a value. */
  lemma GetOfAbsent()
    ensures GetOf(Absent) == Success(Got(PyNone, ""))
  {
  }

  /**
    Because `get` dispatches on the tag, it never raises the ValueError of
    `get_value` or `get_binary`: every exception it raises is a RuntimeError.
  */
  lemma GetNeverRaisesValueError(cell: Cell)
    ensures GetOf(cell).Failure? ==> GetOf(cell).error.RuntimeError?
  {
  }

  /** The cell of column `c` at row `r`. */
  function CellAt(cat: Category, c: nat, r: nat): Cell
    requires CategoryWF(cat) && c < |cat.columns| && r < cat.rows
  {
    cat.columns[c].cells[r]
  }

  /** The results of `get` along row `r`, in column order. */
  function RowResults(cat: Category, r: nat): (rs: seq<Result<Got>>)
    requires CategoryWF(cat) && r < cat.rows
    ensures |rs| == |cat.columns|
    ensures forall c :: 0 <= c < |rs| ==> rs[c] == GetOf(CellAt(cat, c, r))
  {
    seq(|cat.columns|, c requires 0 <= c < |cat.columns| => GetOf(CellAt(cat, c, r)))
  }

  /** The first exception in a sequence of results. */
  function FirstError(rs: seq<Result<Got>>): (e: Option<Error>)
    ensures e.None? <==> forall i :: 0 <= i < |rs| ==> rs[i].Success?
    ensures e.Some? ==>
              exists i :: 0 <= i < |rs| && rs[i] == Failure(e.value) &&
                          (forall j :: 0 <= j < i ==> rs[j].Success?)
  {
    if |rs| == 0 then None
    else
      var front := rs[..|rs| - 1];
      assert forall i :: 0 <= i < |front| ==> front[i] == rs[i];
      var e := FirstError(front);
      if e.Some? then e
      else if rs[|rs| - 1].Failure? then Some(rs[|rs| - 1].error)
      else None
  }

  /** Once an exception is met, the results after it do not change which one is raised. */
  lemma {:induction false} FirstErrorOfPrefix(rs: seq<Result<Got>>, k: nat)
    requires k <= |rs| && FirstError(rs[..k]).Some?
    ensures FirstError(rs) == FirstError(rs[..k])
  {
    if k < |rs| {
      assert rs[..|rs| - 1][..k] == rs[..k];
      FirstErrorOfPrefix(rs[..|rs| - 1], k);
    } else {
      assert rs[..k] == rs;
    }
  }

  /** The results of `get` on every cell, row by row. */
  function Table(cat: Category): (t: seq<seq<Result<Got>>>)
    requires CategoryWF(cat)
    ensures |t| == cat.rows
    ensures Rectangular(t, |cat.columns|)
    ensures forall r :: 0 <= r < |t| ==> t[r] == RowResults(cat, r)
  {
    seq(cat.rows, r requires 0 <= r < cat.rows => RowResults(cat, r))
  }

  /** The first exception met reading rows `0 .. n-1` of a table in row-major order. */
  function TableError(t: seq<seq<Result<Got>>>, n: nat): (e: Option<Error>)
    requires n <= |t|
    ensures e.None? <==> forall r, c :: 0 <= r < n && 0 <= c < |t[r]| ==> t[r][c].Success?
  {
    if n == 0 then None
    else
      var e := TableError(t, n - 1);
      if e.Some? then e else FirstError(t[n - 1])
  }

  lemma {:induction false} TableErrorOfPrefix(t: seq<seq<Result<Got>>>, k: nat, n: nat)
    requires k <= n <= |t| && TableError(t, k).Some?
    ensures TableError(t, n) == TableError(t, k)
  {
    if k < n {
      TableErrorOfPrefix(t, k, n - 1);
    }
  }

  /** An exception at column `c` of row `r`, after a clean prefix, is the table's first. */
  lemma RowFailure(t: seq<seq<Result<Got>>>, r: nat, c: nat)
    requires r < |t| && c < |t[r]|
    requires TableError(t, r).None? && FirstError(t[r][..c]).None? && t[r][c].Failure?
    ensures TableError(t, r + 1) == Some(t[r][c].error)
  {
    assert t[r][..c + 1][..c] == t[r][..c];
    assert FirstError(t[r][..c + 1]) == Some(t[r][c].error);
    FirstErrorOfPrefix(t[r], c + 1);
  }

  /** The value part of a result, for results known to be successful. */
  function ValueOfResult(res: Result<Got>): PyValue {
    if res.Success? then res.value.value else PyNone
  }

  /** The values `get` returned in column `c` for rows `0 .. n-1` of a table of results, in row order. */
  function ColumnValues(t: seq<seq<Result<Got>>>, c: nat, n: nat): (vs: seq<PyValue>)
    requires n <= |t| && forall r :: 0 <= r < n ==> c < |t[r]|
    ensures |vs| == n
    ensures forall r :: 0 <= r < n ==> vs[r] == ValueOfResult(t[r][c])
  {
    seq(n, r requires 0 <= r < n => ValueOfResult(t[r][c]))
  }

  /** Reading one more row appends that row's value to the column's list. */
  lemma ColumnValuesStep(t: seq<seq<Result<Got>>>, c: nat, n: nat)
    requires n < |t| && forall r :: 0 <= r <= n ==> c < |t[r]|
    ensures ColumnValues(t, c, n + 1) == ColumnValues(t, c, n) + [ValueOfResult(t[n][c])]
  {
  }

  function ColumnNames(cat: Category): (names: seq<string>)
    ensures |names| == |cat.columns|
    ensures forall i :: 0 <= i < |names| ==> names[i] == cat.columns[i].name
  {
    seq(|cat.columns|, i requires 0 <= i < |cat.columns| => cat.columns[i].name)
  }

  /** The "values" dictionary built by assigning `values[names[i]] = vals[i]` for i in order. */
  function ValuesMap(names: seq<string>, vals: seq<seq<PyValue>>): map<string, seq<PyValue>>
    requires |names| == |vals|
  {
    if |names| == 0 then map[]
    else ValuesMap(names[..|names| - 1], vals[..|vals| - 1])[names[|names| - 1] := vals[|vals| - 1]]
  }

  /**
    The dictionary has exactly the column names as keys, and each name maps
    to the values of the LAST column carrying it; with distinct names, to
    the values of its own column.
  */
  lemma {:induction false} ValuesMapAt(names: seq<string>, vals: seq<seq<PyValue>>, i: nat)
    requires |names| == |vals| && i < |names|
    requires forall j :: i < j < |names| ==> names[j] != names[i]
    ensures names[i] in ValuesMap(names, vals)
    ensures ValuesMap(names, vals)[names[i]] == vals[i]
  {
    var n := |names|;
    if i < n - 1 {
      ValuesMapAt(names[..n - 1], vals[..n - 1], i);
    }
  }

  lemma {:induction false} ValuesMapKeys(names: seq<string>, vals: seq<seq<PyValue>>)
    requires |names| == |vals|
    ensures forall x :: x in ValuesMap(names, vals) <==> x in names
  {
    var n := |names|;
    if n > 0 {
      ValuesMapKeys(names[..n - 1], vals[..n - 1]);
      assert names == names[..n - 1] + [names[n - 1]];
    }
  }

  /** The tag of each column observed at row 0, the "columns~type" list. */
  function ColumnTypes(cat: Category): (types: seq<string>)
    requires CategoryWF(cat) && (|cat.columns| == 0 || cat.rows > 0)
    ensures |types| == |cat.columns|
    ensures forall c :: 0 <= c < |types| ==> types[c] == TypeTag(CellAt(cat, c, 0))
  {
    seq(|cat.columns|, c requires 0 <= c < |cat.columns| => TypeTag(CellAt(cat, c, 0)))
  }

  /** Every row of the table has `w` entries. */
  ghost predicate Rectangular(t: seq<seq<Result<Got>>>, w: nat) {
    forall r :: 0 <= r < |t| ==> |t[r]| == w
  }

  /** The column lists after reading rows `0 .. n-1` of a table `w` columns wide. */
  function ColumnsUpTo(t: seq<seq<Result<Got>>>, w: nat, n: nat): (vals: seq<seq<PyValue>>)
    requires n <= |t| && Rectangular(t, w)
    ensures |vals| == w
    ensures forall c :: 0 <= c < w ==> vals[c] == ColumnValues(t, c, n)
  {
    seq(w, c requires 0 <= c < w => ColumnValues(t, c, n))
  }

  /** Before any row is read every column list is empty. */
  lemma ColumnsUpToZero(t: seq<seq<Result<Got>>>, w: nat)
    requires Rectangular(t, w)
    ensures ColumnsUpTo(t, w, 0) == seq(w, _ => [])
  {
  }

  /** The column lists midway through row `row`: columns before `c` already hold that row's value. */
  function RowInProgress(t: seq<seq<Result<Got>>>, w: nat, row: nat, c: nat): (vals: seq<seq<PyValue>>)
    requires row < |t| && c <= w && Rectangular(t, w)
    ensures |vals| == w
  {
    ColumnsUpTo(t, w, row + 1)[..c] + ColumnsUpTo(t, w, row)[c..]
  }

  /** A row not yet started leaves the lists as they were; a finished row adds one value to each. */
  lemma RowInProgressEnds(t: seq<seq<Result<Got>>>, w: nat, row: nat)
    requires row < |t| && Rectangular(t, w)
    ensures RowInProgress(t, w, row, 0) == ColumnsUpTo(t, w, row)
    ensures RowInProgress(t, w, row, w) == ColumnsUpTo(t, w, row + 1)
  {
    assert ColumnsUpTo(t, w, row + 1)[..0] == [];
    assert ColumnsUpTo(t, w, row)[w..] == [];
  }

  /** Reading a successful cell appends its value to its column and extends the clean prefix of the row. */
  lemma RowStep(t: seq<seq<Result<Got>>>, w: nat, row: nat, c: nat)
    requires row < |t| && c < w && Rectangular(t, w)
    requires FirstError(t[row][..c]).None? && t[row][c].Success?
    ensures FirstError(t[row][..c + 1]).None?
    ensures var vals := RowInProgress(t, w, row, c);
            vals[c := vals[c] + [t[row][c].value.value]] == RowInProgress(t, w, row, c + 1)
  {
    assert t[row][..c + 1][..c] == t[row][..c];
    ColumnValuesStep(t, c, row);
    var vals := RowInProgress(t, w, row, c);
    var next := RowInProgress(t, w, row, c + 1);
    forall k | 0 <= k < w
      ensures vals[c := vals[c] + [t[row][c].value.value]][k] == next[k]
    {
    }
  }

  /** The values of every column over all rows, in column order. */
  function AllColumnValues(cat: Category): (vals: seq<seq<PyValue>>)
    requires CategoryWF(cat)
    ensures |vals| == |cat.columns|
    ensures forall c :: 0 <= c < |vals| ==> vals[c] == ColumnValues(Table(cat), c, cat.rows)
  {
    ColumnsUpTo(Table(cat), |cat.columns|, cat.rows)
  }

  /**
    `category_asdict` on a category. With columns but no rows the first
    `get_typeofvalue` at row 0 fails; otherwise the first exception of the
    row-major walk is raised, or the dictionary is built.
  */
  function CategorySnapshot(cat: Category): Result<CategoryDict>
    requires CategoryWF(cat)
  {
    var ncols := |cat.columns|;
    if ncols > 0 && cat.rows == 0 then Failure(RuntimeError(CBF_NOTFOUND))
    else
      match TableError(Table(cat), cat.rows)
      case Some(e) => Failure(e)
      case None =>
        var names := ColumnNames(cat);
        Success(CategoryDict(cat.name, names, ColumnTypes(cat), ValuesMap(names, AllColumnValues(cat))))
  }

  /**
    `category_asdict` returns a dictionary exactly when the category has
    rows (or no columns) and every cell reads successfully.
  */
  lemma CategorySnapshotSucceeds(cat: Category)
    requires CategoryWF(cat)
    ensures CategorySnapshot(cat).Success? <==>
              (|cat.columns| == 0 || cat.rows > 0) &&
              forall r, c :: 0 <= r < cat.rows && 0 <= c < |cat.columns| ==> GetOf(CellAt(cat, c, r)).Success?
  {
    var t: seq<seq<Result<Got>>> := Table(cat);
    if forall r, c :: 0 <= r < cat.rows && 0 <= c < |cat.columns| ==> GetOf(CellAt(cat, c, r)).Success? {
      forall r: int, c: int | 0 <= r < cat.rows && 0 <= c < |t[r]| ensures t[r][c].Success? {
        assert t[r][c] == GetOf(CellAt(cat, c, r));
      }
    } else {
      var r: int, c: int :| 0 <= r < cat.rows && 0 <= c < |cat.columns| && !GetOf(CellAt(cat, c, r)).Success?;
      assert !t[r][c].Success?;
    }
  }

  /**
    The "columns" and "columns~type" lists have one entry per column, in
    column order, the type being the tag observed at row 0; the "values"
    keys are exactly the column names.
  */
  lemma CategorySnapshotColumns(cat: Category)
    requires CategoryWF(cat) && CategorySnapshot(cat).Success?
    ensures var d := CategorySnapshot(cat).value;
            && d.name == cat.name
            && |d.columns| == |d.columnTypes| == |cat.columns|
            && (forall i :: 0 <= i < |cat.columns| ==> d.columns[i] == cat.columns[i].name)
            && (forall i :: 0 <= i < |cat.columns| ==> d.columnTypes[i] == TypeTag(CellAt(cat, i, 0)))
            && (forall x :: x in d.values <==> x in d.columns)
  {
    ValuesMapKeys(ColumnNames(cat), AllColumnValues(cat));
  }

  /**
    A column whose name no later column reuses keeps its own "values"
    entry, since later columns overwrite earlier ones: that list has
    `nrows` entries, and entry `r` is the value `get` returns at row `r`.
  */
  lemma CategorySnapshotValues(cat: Category, i: nat)
    requires CategoryWF(cat) && CategorySnapshot(cat).Success? && i < |cat.columns|
    requires forall j :: i < j < |cat.columns| ==> cat.columns[j].name != cat.columns[i].name
    ensures var d := CategorySnapshot(cat).value;
            && cat.columns[i].name in d.values
            && |d.values[cat.columns[i].name]| == cat.rows
            && forall r :: 0 <= r < cat.rows ==>
                 GetOf(CellAt(cat, i, r)) == Success(Got(d.values[cat.columns[i].name][r], TypeTag(CellAt(cat, i, r))))
  {
    var names := ColumnNames(cat);
    var vals := AllColumnValues(cat);
    var d := CategorySnapshot(cat).value;
    assert d.values == ValuesMap(names, vals);
    ValuesMapAt(names, vals, i);
    assert d.values[cat.columns[i].name] == ColumnValues(Table(cat), i, cat.rows);
    assert TableError(Table(cat), cat.rows).None?;
    var t: seq<seq<Result<Got>>> := Table(cat);
    forall r | 0 <= r < cat.rows
      ensures GetOf(CellAt(cat, i, r)) == Success(Got(d.values[cat.columns[i].name][r], TypeTag(CellAt(cat, i, r))))
    {
      assert t[r][i] == GetOf(CellAt(cat, i, r));
      assert t[r][i].Success?;
      GetTagIsTypeTag(CellAt(cat, i, r));
    }
  }

  /** A successful `get` reports the cell's type tag. */
  lemma GetTagIsTypeTag(cell: Cell)
    ensures GetOf(cell).Success? ==> GetOf(cell).value.tag == TypeTag(cell)
  {
  }

  ghost predicate AllCategoriesWF(cats: seq<Category>) {
    forall i :: 0 <= i < |cats| ==> CategoryWF(cats[i])
  }

  /**
    The list built by appending one result per iteration, or the first
    exception among the first `n` results.
  */
  function Collect<T>(rs: seq<Result<T>>, n: nat): (r: Result<seq<T>>)
    requires n <= |rs|
    ensures r.Success? <==> forall i :: 0 <= i < n ==> rs[i].Success?
    ensures r.Success? ==> |r.value| == n && forall i :: 0 <= i < n ==> rs[i] == Success(r.value[i])
    ensures r.Failure? ==>
              exists i :: 0 <= i < n && rs[i] == Failure(r.error) &&
                          (forall j :: 0 <= j < i ==> rs[j].Success?)
  {
    if n == 0 then Success([])
    else
      match Collect(rs, n - 1)
      case Failure(e) => Failure(e)
      case Success(ds) =>
        match rs[n - 1]
        case Failure(e) => Failure(e)
        case Success(d) => Success(ds + [d])
  }

  /** A successful iteration appends its value to the list. */
  lemma CollectStep<T>(rs: seq<Result<T>>, n: nat, ds: seq<T>)
    requires n < |rs| && Collect(rs, n) == Success(ds) && rs[n].Success?
    ensures Collect(rs, n + 1) == Success(ds + [rs[n].value])
  {
  }

  /** Once an exception is met, later iterations do not change which one is raised. */
  lemma {:induction false} CollectOfPrefix<T>(rs: seq<Result<T>>, k: nat, n: nat)
    requires k <= n <= |rs| && Collect(rs, k).Failure?
    ensures Collect(rs, n) == Collect(rs, k)
  {
    if k < n {
      CollectOfPrefix(rs, k, n - 1);
    }
  }

  /** `category_asdict` on each category of a datablock, in order. */
  function CategoryResults(cats: seq<Category>): (rs: seq<Result<CategoryDict>>)
    requires AllCategoriesWF(cats)
    ensures |rs| == |cats|
  {
    if |cats| == 0 then []
    else
      var front := cats[..|cats| - 1];
      assert forall i :: 0 <= i < |front| ==> front[i] == cats[i];
      CategoryResults(front) + [CategorySnapshot(cats[|cats| - 1])]
  }

  /** Entry `i` is the dictionary of category `i`. */
  lemma {:induction false} CategoryResultsAt(cats: seq<Category>, i: nat)
    requires AllCategoriesWF(cats) && i < |cats|
    ensures CategoryResults(cats)[i] == CategorySnapshot(cats[i])
  {
    if i < |cats| - 1 {
      var front := cats[..|cats| - 1];
      assert forall j :: 0 <= j < |front| ==> front[j] == cats[j];
      CategoryResultsAt(front, i);
    }
  }

  /** `datablock_asdict` on a datablock: rewinding an empty datablock fails. */
  function BlockSnapshot(b: Block): Result<BlockDict>
    requires BlockWF(b)
  {
    if |b.categories| == 0 then Failure(RuntimeError(CBF_NOTFOUND))
    else
      match Collect(CategoryResults(b.categories), |b.categories|)
      case Failure(e) => Failure(e)
      case Success(ds) => Success(BlockDict(b.name, ds))
  }

  /** Collecting every category dictionary of a non-empty datablock completes its dictionary. */
  lemma BlockSnapshotOfCollect(b: Block, cats: seq<CategoryDict>)
    requires BlockWF(b) && |b.categories| > 0
    requires Collect(CategoryResults(b.categories), |b.categories|) == Success(cats)
    ensures BlockSnapshot(b) == Success(BlockDict(b.name, cats))
  {
  }

  /** `datablock_asdict` on each datablock of a document, in order. */
  function BlockResults(doc: seq<Block>): (rs: seq<Result<BlockDict>>)
    requires DocumentWF(doc)
    ensures |rs| == |doc|
  {
    if |doc| == 0 then []
    else
      var front := doc[..|doc| - 1];
      assert forall i :: 0 <= i < |front| ==> front[i] == doc[i];
      BlockResults(front) + [BlockSnapshot(doc[|doc| - 1])]
  }

  /** Entry `i` is the dictionary of datablock `i`. */
  lemma {:induction false} BlockResultsAt(doc: seq<Block>, i: nat)
    requires DocumentWF(doc) && i < |doc|
    ensures BlockResults(doc)[i] == BlockSnapshot(doc[i])
  {
    if i < |doc| - 1 {
      var front := doc[..|doc| - 1];
      assert forall j :: 0 <= j < |front| ==> front[j] == doc[j];
      BlockResultsAt(front, i);
    }
  }

  /** `datablocks`: rewinding an empty document fails. */
  function DocumentSnapshot(doc: seq<Block>): Result<seq<BlockDict>>
    requires DocumentWF(doc)
  {
    if |doc| == 0 then Failure(RuntimeError(CBF_NOTFOUND)) else Collect(BlockResults(doc), |doc|)
  }

  /** Collecting every datablock dictionary of a non-empty document completes the list. */
  lemma DocumentSnapshotOfCollect(doc: seq<Block>, blocks: seq<BlockDict>)
    requires DocumentWF(doc) && |doc| > 0
    requires Collect(BlockResults(doc), |doc|) == Success(blocks)
    ensures DocumentSnapshot(doc) == Success(blocks)
  {
  }

  /**
    The datablock dictionary holds one category dictionary per category,
    in traversal order: one for the rewind and one per successful
    `next_category`.
  */
  lemma BlockSnapshotContents(b: Block)
    requires BlockWF(b)
    ensures BlockSnapshot(b).Success? ==>
              && BlockSnapshot(b).value.name == b.name
              && |BlockSnapshot(b).value.categories| == |b.categories| > 0
              && forall i :: 0 <= i < |b.categories| ==>
                   CategorySnapshot(b.categories[i]) == Success(BlockSnapshot(b).value.categories[i])
  {
    forall i | 0 <= i < |b.categories| {
      CategoryResultsAt(b.categories, i);
    }
  }
  /**
    A datablock dictionary that cannot be built raises the exception of
    its first failing category, or NOTFOUND when it has no category.
  */
  lemma BlockSnapshotFailure(b: Block)
    requires BlockWF(b) && BlockSnapshot(b).Failure?
    ensures |b.categories| == 0 ==> BlockSnapshot(b).error == RuntimeError(CBF_NOTFOUND)
    ensures |b.categories| > 0 ==>
              exists i :: 0 <= i < |b.categories| &&
                CategorySnapshot(b.categories[i]) == Failure(BlockSnapshot(b).error) &&
                forall j :: 0 <= j < i ==> CategorySnapshot(b.categories[j]).Success?
  {
    if |b.categories| > 0 {
      var rs := CategoryResults(b.categories);
      var i :| 0 <= i < |b.categories| && rs[i] == Failure(BlockSnapshot(b).error) &&
               (forall j :: 0 <= j < i ==> rs[j].Success?);
      CategoryResultsAt(b.categories, i);
      forall j | 0 <= j < i ensures CategorySnapshot(b.categories[j]).Success? {
        CategoryResultsAt(b.categories, j);
      }
    }
  }

  /**
    The list `datablocks` returns holds one datablock dictionary per
    datablock, in document order.
  */
  lemma DocumentSnapshotContents(doc: seq<Block>)
    requires DocumentWF(doc)
    ensures DocumentSnapshot(doc).Success? ==>
              && |DocumentSnapshot(doc).value| == |doc| > 0
              && forall i :: 0 <= i < |doc| ==> BlockSnapshot(doc[i]) == Success(DocumentSnapshot(doc).value[i])
  {
    forall i | 0 <= i < |doc| {
      BlockResultsAt(doc, i);
    }
  }

  /**
    `datablocks` raises NOTFOUND on an empty document, and otherwise the
    exception of its first datablock that fails.
  */
  lemma DocumentSnapshotFailure(doc: seq<Block>)
    requires DocumentWF(doc) && DocumentSnapshot(doc).Failure?
    ensures |doc| == 0 ==> DocumentSnapshot(doc).error == RuntimeError(CBF_NOTFOUND)
    ensures |doc| > 0 ==>
              exists i :: 0 <= i < |doc| &&
                BlockSnapshot(doc[i]) == Failure(DocumentSnapshot(doc).error) &&
                forall j :: 0 <= j < i ==> BlockSnapshot(doc[j]).Success?
  {
    if |doc| > 0 {
      var rs := BlockResults(doc);
      var i :| 0 <= i < |doc| && rs[i] == Failure(DocumentSnapshot(doc).error) &&
               (forall j :: 0 <= j < i ==> rs[j].Success?);
      BlockResultsAt(doc, i);
      forall j | 0 <= j < i ensures BlockSnapshot(doc[j]).Success? {
        BlockResultsAt(doc, j);
      }
    }
  }
  /**
    A category "cell" with one column "a" over two rows, the first without
    a value: the type recorded is the one seen at row 0, the empty tag.
  */
  lemma CategoryExample()
    ensures var cat := Category("cell", 2, [Column("a", [Absent, Textual("numb", "1.5")])]);
            CategorySnapshot(cat) == Success(CategoryDict("cell", ["a"], [""], map["a" := [PyNone, PyStr("1.5")]]))
  {
    var cat := Category("cell", 2, [Column("a", [Absent, Textual("numb", "1.5")])]);
    assert CellAt(cat, 0, 0) == Absent && CellAt(cat, 0, 1) == Textual("numb", "1.5");
    GetOfAbsent();
    assert GetOf(Textual("numb", "1.5")) == Success(Got(PyStr("1.5"), "numb"));
    CategorySnapshotSucceeds(cat);
    CategorySnapshotColumns(cat);
    CategorySnapshotValues(cat, 0);
    var d := CategorySnapshot(cat).value;
    assert d.columns == ["a"] && d.columnTypes == [""];
    assert d.values["a"] == [PyNone, PyStr("1.5")];
    assert d.values == map["a" := [PyNone, PyStr("1.5")]];
  }
}
