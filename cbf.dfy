/**
  The `CBF` wrapper class: thin methods over the libcbf handle that map
  each status to a Python outcome, the value reader (`get`, `get_binary`,
  `get_value`, the array readers) and the tree flattener
  (`category_asdict`, `datablock_asdict`, `datablocks`).

  Raising an exception is modelled as returning `Failure`; a call whose
  result the Python code does not guard propagates its failure.
*/
module Cbf {
  import opened Status
  import opened Shape
  import opened Dispatch
  import opened LibCbf
  import opened Snapshot

  /**
    The `key` argument of the `*_asdict` methods: None, a str, an int, or
    any other object. A Python 2 `long` (beyond `sys.maxint`) is not an
    `int` to `isinstance`, so it is an `OtherKey` and raises TypeError.
  */
  datatype Key = Current | Name(name: string) | Index(index: int) | OtherKey

  /** The dictionary `get_arrayparameters` returns: the raw parameters and the derived shape. */
  datatype ArrayParameters = ArrayParameters(params: Params, shape: seq<nat>)

  const UINT_MODULUS: int := 0x1_0000_0000

  /** `c_uint(index)`: Python ints are truncated to 32 bits, so negative indices wrap. */
  function CUInt(index: int): (cind: nat)
    ensures cind < UINT_MODULUS
    ensures 0 <= index < UINT_MODULUS ==> cind == index
    ensures -UINT_MODULUS <= index < 0 ==> cind == index + UINT_MODULUS
    ensures (index - cind) % UINT_MODULUS == 0
  {
    index % UINT_MODULUS
  }

  /** `get` at a cursor position: with no cell there, `get_typeofvalue` already raises. */
  function GetAt(l: Lookup): Result<Got> {
    match l
    case Missing(s) => Failure(RuntimeError(s))
    case Found(cell) => GetOf(cell)
  }

  /** The outcome of positioning a cursor by `key`: nothing to do, `find_*`, `select_*`, or TypeError. */
  function KeyOutcome(key: Key, status: int): Result<()> {
    match key
    case Current => Success(())
    case Name(_) => Find(status)
    case Index(i) => Select(status, i)
    case OtherKey => Failure(TypeError)
  }

  /**
    Where `category_asdict` leaves the column cursor after walking `cat`:
    on the last column, or where it was (`before`) when there are none.
  */
  function LastColumn(cat: Category, before: Cursor): Cursor {
    if |cat.columns| > 0 then At(|cat.columns| - 1) else before
  }

  /** Where `category_asdict` leaves the row cursor: the last row, or row 0 of its rewinds. */
  function LastRow(cat: Category): Cursor {
    At(if cat.rows > 0 then cat.rows - 1 else 0)
  }

  /**
    Where the row and column cursors stand once `n` rows of a table `ncols`
    wide have been read, each to its last column, starting from `row0` and
    `col0`.
  */
  predicate CursorsAfterRows(row: Cursor, column: Cursor, n: nat, ncols: int, row0: Cursor, col0: Cursor) {
    && row == (if n > 0 then At(n - 1) else row0)
    && column == (if n > 0 && ncols > 0 then At(ncols - 1) else col0)
  }

  class CBF {
    const h: Handle

    ghost predicate Valid()
      reads this, h
    {
      h.Valid()
    }

    /** Where positioning the datablock cursor by `key` leaves it, with the library status. */
    ghost function DatablockKeyMove(key: Key): Move
      reads this, h
      requires Valid()
    {
      match key
      case Name(n) => h.FindDatablockMove(n)
      case Index(i) => h.SelectDatablockMove(CUInt(i))
      case _ => Move(0, h.block)
    }

    /** Where positioning the category cursor by `key` leaves it, with the library status. */
    ghost function CategoryKeyMove(key: Key): Move
      reads this, h
      requires Valid()
    {
      match key
      case Name(n) => h.FindCategoryMove(n)
      case Index(i) => h.SelectCategoryMove(CUInt(i))
      case _ => Move(0, h.category)
    }

    /**
      Where the category walk of `datablock_asdict` leaves the cursors: the
      final `next_category` raised StopIteration, so the category cursor is
      on the last category and the column and row cursors are where that
      category's `category_asdict` left them.
    */
    ghost predicate AtEndOfBlock()
      reads this, h
      requires Valid() && h.block.At?
    {
      var b := h.CurrentBlock();
      && |b.categories| > 0
      && h.category == At(|b.categories| - 1)
      && h.column == LastColumn(b.categories[|b.categories| - 1], Unset)
      && h.row == LastRow(b.categories[|b.categories| - 1])
    }

    /** A wrapper over a handle on a parsed document, no cursor positioned. */
    constructor (doc: seq<Block>)
      requires DocumentWF(doc)
      ensures Valid() && fresh(h) && h.doc == doc
      ensures h.block == Unset && h.category == Unset && h.column == Unset && h.row == Unset
    {
      h := new Handle(doc);
    }

    // Datablock cursor.

    method RewindDatablock() returns (r: Result<()>)
      requires Valid()
      modifies h
      ensures Valid()
      ensures r.Success? <==> |h.doc| > 0
      ensures r.Success? ==> h.block == At(0) && h.category == Unset && h.column == Unset && h.row == Unset
      ensures r.Failure? ==> r.error == RuntimeError(CBF_NOTFOUND) && unchanged(h)
    {
      var status := h.RewindDatablock();
      r := Check(status);
    }

    method NextDatablock() returns (r: Result<()>)
      requires Valid()
      modifies h
      ensures Valid()
      ensures old(h.block).Unset? ==> r == Failure(RuntimeError(CBF_ARGUMENT))
      ensures old(h.block).At? ==> (r.Success? <==> old(h.block).index + 1 < |h.doc|)
      ensures old(h.block).At? && r.Failure? ==> r.error == StopIteration
      ensures r.Success? ==> old(h.block).At? && h.block == At(old(h.block).index + 1)
      ensures r.Success? ==> h.category == Unset && h.column == Unset && h.row == Unset
      ensures r.Failure? ==> unchanged(h)
    {
      var status := h.NextDatablock();
      r := Next(status);
    }

    method FindDatablock(name: string) returns (r: Result<()>)
      requires Valid()
      modifies h
      ensures r == Find(old(h.FindDatablockMove(name)).status) && h.block == old(h.FindDatablockMove(name)).cursor
      ensures Valid()
      ensures r.Success? <==> name in BlockNames(h.doc)
      ensures r.Success? ==> h.block.At? && h.CurrentBlock().name == name
      ensures r.Success? ==> forall j :: 0 <= j < h.block.index ==> h.doc[j].name != name
      ensures r.Success? ==> h.category == Unset && h.column == Unset && h.row == Unset
      ensures r.Failure? ==> r.error == KeyError && unchanged(h)
    {
      var status := h.FindDatablock(name);
      r := Find(status);
      assert forall j :: 0 <= j < |h.doc| ==> BlockNames(h.doc)[j] == h.doc[j].name;
    }

    method SelectDatablock(index: int) returns (r: Result<()>)
      requires Valid()
      modifies h
      ensures r == Select(old(h.SelectDatablockMove(CUInt(index))).status, index)
      ensures h.block == old(h.SelectDatablockMove(CUInt(index))).cursor
      ensures Valid()
      ensures r.Success? <==> CUInt(index) < |h.doc|
      ensures r.Success? ==> h.block == At(CUInt(index))
      ensures r.Success? ==> h.category == Unset && h.column == Unset && h.row == Unset
      ensures r.Failure? ==> r.error == IndexError(index) && unchanged(h)
    {
      var status := h.SelectDatablock(CUInt(index));
      r := Select(status, index);
    }

    method CountDatablocks() returns (r: Result<int>)
      ensures r == Success(|h.doc|)
    {
      var status, count := h.CountDatablocks();
      r := GetInt(status, count);
    }

    method DatablockName() returns (r: Result<string>)
      requires Valid()
      ensures h.block.At? ==> r == Success(h.CurrentBlock().name)
      ensures h.block.Unset? ==> r == Failure(RuntimeError(CBF_ARGUMENT))
    {
      var status, name := h.DatablockName();
      r := GetStr(status, name);
    }

    // Category cursor, scoped by the datablock cursor.

    method RewindCategory() returns (r: Result<()>)
      requires Valid()
      modifies h
      ensures Valid() && h.block == old(h.block)
      ensures h.block.Unset? ==> r == Failure(RuntimeError(CBF_ARGUMENT))
      ensures h.block.At? ==> (r.Success? <==> h.NumCategories() > 0)
      ensures h.block.At? && r.Failure? ==> r.error == RuntimeError(CBF_NOTFOUND)
      ensures r.Success? ==> h.category == At(0) && h.column == Unset && h.row == Unset
      ensures r.Failure? ==> unchanged(h)
    {
      var status := h.RewindCategory();
      r := Check(status);
    }

    method NextCategory() returns (r: Result<()>)
      requires Valid()
      modifies h
      ensures Valid() && h.block == old(h.block)
      ensures old(h.category).Unset? ==> r == Failure(RuntimeError(CBF_ARGUMENT))
      ensures old(h.category).At? ==> (r.Success? <==> old(h.category).index + 1 < h.NumCategories())
      ensures old(h.category).At? && r.Failure? ==> r.error == StopIteration
      ensures r.Success? ==> old(h.category).At? && h.category == At(old(h.category).index + 1)
      ensures r.Success? ==> h.column == Unset && h.row == Unset
      ensures r.Failure? ==> unchanged(h)
    {
      var status := h.NextCategory();
      r := Next(status);
    }

    method FindCategory(name: string) returns (r: Result<()>)
      requires Valid()
      modifies h
      ensures r == Find(old(h.FindCategoryMove(name)).status) && h.category == old(h.FindCategoryMove(name)).cursor
      ensures Valid() && h.block == old(h.block)
      ensures h.block.Unset? ==> r == Failure(RuntimeError(CBF_ARGUMENT))
      ensures h.block.At? ==> (r.Success? <==> name in CategoryNames(h.CurrentBlock()))
      ensures h.block.At? && r.Failure? ==> r.error == KeyError
      ensures r.Success? ==> h.category.At? && h.CurrentCategory().name == name
      ensures r.Success? ==> h.column == Unset && h.row == Unset
      ensures r.Failure? ==> unchanged(h)
    {
      var status := h.FindCategory(name);
      r := Find(status);
      assert h.category.At? ==>
        CategoryNames(h.CurrentBlock())[h.category.index] == h.CurrentBlock().categories[h.category.index].name;
    }

    method SelectCategory(index: int) returns (r: Result<()>)
      requires Valid()
      modifies h
      ensures r == Select(old(h.SelectCategoryMove(CUInt(index))).status, index)
      ensures h.category == old(h.SelectCategoryMove(CUInt(index))).cursor
      ensures Valid() && h.block == old(h.block)
      ensures h.block.Unset? ==> r == Failure(RuntimeError(CBF_ARGUMENT))
      ensures h.block.At? ==> (r.Success? <==> CUInt(index) < h.NumCategories())
      ensures h.block.At? && r.Failure? ==> r.error == IndexError(index)
      ensures r.Success? ==> h.category == At(CUInt(index)) && h.column == Unset && h.row == Unset
      ensures r.Failure? ==> unchanged(h)
    {
      var status := h.SelectCategory(CUInt(index));
      r := Select(status, index);
    }

    method CountCategories() returns (r: Result<int>)
      requires Valid()
      ensures h.block.At? ==> r == Success(|h.CurrentBlock().categories|)
      ensures h.block.Unset? ==> r == Failure(RuntimeError(CBF_ARGUMENT))
    {
      var status, count := h.CountCategories();
      r := GetInt(status, count);
    }

    method CategoryName() returns (r: Result<string>)
      requires Valid()
      ensures h.category.At? ==> r == Success(h.CurrentCategory().name)
      ensures h.category.Unset? ==> r == Failure(RuntimeError(CBF_ARGUMENT))
    {
      var status, name := h.CategoryName();
      r := GetStr(status, name);
    }

    // Column and row cursors, scoped by the category cursor.

    method SelectColumn(index: int) returns (r: Result<()>)
      requires Valid()
      modifies h
      ensures Valid() && h.block == old(h.block) && h.category == old(h.category) && h.row == old(h.row)
      ensures h.category.Unset? ==> r == Failure(RuntimeError(CBF_ARGUMENT))
      ensures h.category.At? ==> (r.Success? <==> CUInt(index) < |h.CurrentCategory().columns|)
      ensures h.category.At? && r.Failure? ==> r.error == IndexError(index)
      ensures r.Success? ==> h.column == At(CUInt(index))
      ensures r.Failure? ==> h.column == old(h.column)
    {
      var status := h.SelectColumn(CUInt(index));
      r := Select(status, index);
    }

    method CountColumns() returns (r: Result<int>)
      requires Valid()
      ensures h.category.At? ==> r == Success(|h.CurrentCategory().columns|)
      ensures h.category.Unset? ==> r == Failure(RuntimeError(CBF_ARGUMENT))
    {
      var status, count := h.CountColumns();
      r := GetInt(status, count);
    }

    method ColumnName() returns (r: Result<string>)
      requires Valid()
      ensures h.column.At? ==> r == Success(h.CurrentCategory().columns[h.column.index].name)
      ensures h.column.Unset? ==> r == Failure(RuntimeError(CBF_ARGUMENT))
    {
      var status, name := h.ColumnName();
      r := GetStr(status, name);
    }

    method RewindRow() returns (r: Result<()>)
      requires Valid()
      modifies h
      ensures Valid() && h.block == old(h.block) && h.category == old(h.category) && h.column == old(h.column)
      ensures h.category.Unset? ==> r == Failure(RuntimeError(CBF_ARGUMENT)) && h.row == old(h.row)
      ensures h.category.At? ==> r == Success(()) && h.row == At(0)
    {
      var status := h.RewindRow();
      r := Check(status);
    }

    method SelectRow(index: int) returns (r: Result<()>)
      requires Valid()
      modifies h
      ensures Valid() && h.block == old(h.block) && h.category == old(h.category) && h.column == old(h.column)
      ensures h.category.Unset? ==> r == Failure(RuntimeError(CBF_ARGUMENT))
      ensures h.category.At? ==> (r.Success? <==> CUInt(index) < h.CurrentCategory().rows)
      ensures h.category.At? && r.Failure? ==> r.error == IndexError(index)
      ensures r.Success? ==> h.row == At(CUInt(index))
      ensures r.Failure? ==> h.row == old(h.row)
    {
      var status := h.SelectRow(CUInt(index));
      r := Select(status, index);
    }

    method CountRows() returns (r: Result<int>)
      requires Valid()
      ensures h.category.At? ==> r == Success(h.CurrentCategory().rows)
      ensures h.category.Unset? ==> r == Failure(RuntimeError(CBF_ARGUMENT))
    {
      var status, count := h.CountRows();
      r := GetInt(status, count);
    }

    // Value reader.

    method GetTypeOfValue() returns (r: Result<string>)
      requires Valid()
      ensures h.CurrentCell().Missing? ==> r == Failure(RuntimeError(h.CurrentCell().status))
      ensures h.CurrentCell().Found? ==> r == Success(TypeTag(h.CurrentCell().cell))
    {
      var status, tag := h.GetTypeOfValue();
      r := GetStr(status, tag);
    }

    /** `get_value`: the literal of a textual cell; ValueError exactly for a binary one. */
    method GetValue() returns (r: Result<Option<string>>)
      requires Valid()
      ensures h.CurrentCell().Missing? ==> r == Failure(RuntimeError(h.CurrentCell().status))
      ensures h.CurrentCell().Found? ==>
                (r.Failure? <==> h.CurrentCell().cell.Binary?) &&
                (r.Failure? ==> r.error == ValueError("Expecting a non-binary value"))
      ensures h.CurrentCell() == Found(Absent) ==> r == Success(None)
      ensures h.CurrentCell().Found? && h.CurrentCell().cell.Textual? ==> r == Success(Some(h.CurrentCell().cell.text))
    {
      var status, val := h.GetValue();
      r := Status.GetValue(status, val);
    }

    /** `get_arrayparameters`: the parameters of a binary cell and the shape the cascade derives. */
    method GetArrayParameters() returns (r: Result<ArrayParameters>)
      requires Valid()
      ensures h.CurrentCell().Missing? ==> r == Failure(RuntimeError(h.CurrentCell().status))
      ensures h.CurrentCell().Found? && !h.CurrentCell().cell.Binary? ==> r == Failure(RuntimeError(CBF_ASCII))
      ensures h.CurrentCell().Found? && h.CurrentCell().cell.Binary? ==>
                var p := h.CurrentCell().cell.params;
                r == Success(ArrayParameters(p, ShapeOf(p.dimslow, p.dimmid, p.dimfast, p.nelem)))
    {
      var status, p := h.GetArrayParameters();
      if status != 0 {
        return Failure(RuntimeError(status));
      }
      var shape := ShapeOf(p.dimslow, p.dimmid, p.dimfast, p.nelem);
      r := Success(ArrayParameters(p, shape));
    }

    /**
      `get_integerarray`: 4-byte integers of the given signedness, accepted
      only if the codec succeeds and fills the whole shape. The element
      count is the product of the shape; for the empty shape that product
      is the float 1.0, which `c_size_t` refuses before libcbf is called.
    */
    method GetIntegerArray(shape: seq<nat>, elsigned: bool) returns (r: Result<NdArray>)
      requires Valid()
      ensures |shape| == 0 ==> r == Failure(TypeError)
      ensures r.Success? <==> |shape| > 0 && h.CurrentCell().Found? && h.CurrentCell().cell.Binary? &&
                              h.CurrentCell().cell.codecStatus == 0 && h.CurrentCell().cell.available >= Product(shape)
      ensures r.Success? ==> r.value == NdArray(if elsigned then Int32 else UInt32, shape)
      ensures |shape| > 0 && r.Failure? ==> r.error.RuntimeError?
      ensures |shape| > 0 && h.CurrentCell().Missing? ==> r == Failure(RuntimeError(h.CurrentCell().status))
      ensures |shape| > 0 && h.CurrentCell().Found? ==>
                var (ret, elread) := ReadArray(h.CurrentCell().cell, Product(shape));
                r == AcceptRead(if elsigned then Int32 else UInt32, shape, ret, elread)
    {
      if |shape| == 0 {
        return Failure(TypeError);
      }
      var kind := if elsigned then Int32 else UInt32;
      var nelems := Product(shape);
      var status, elread := h.GetArray(4, nelems);
      r := AcceptRead(kind, shape, status, elread);
    }

    /**
      `get_realarray`: the same contract with 8-byte reals, except that the
      float count of an empty shape reaches the untyped libcbf call, where
      ctypes raises ArgumentError.
    */
    method GetRealArray(shape: seq<nat>) returns (r: Result<NdArray>)
      requires Valid()
      ensures |shape| == 0 ==> r == Failure(ArgumentError)
      ensures r.Success? <==> |shape| > 0 && h.CurrentCell().Found? && h.CurrentCell().cell.Binary? &&
                              h.CurrentCell().cell.codecStatus == 0 && h.CurrentCell().cell.available >= Product(shape)
      ensures r.Success? ==> r.value == NdArray(Float64, shape)
      ensures |shape| > 0 && r.Failure? ==> r.error.RuntimeError?
      ensures |shape| > 0 && h.CurrentCell().Missing? ==> r == Failure(RuntimeError(h.CurrentCell().status))
      ensures |shape| > 0 && h.CurrentCell().Found? ==>
                var (ret, elread) := ReadArray(h.CurrentCell().cell, Product(shape));
                r == AcceptRead(Float64, shape, ret, elread)
    {
      if |shape| == 0 {
        return Failure(ArgumentError);
      }
      var nelems := Product(shape);
      var status, elread := h.GetArray(8, nelems);
      r := AcceptRead(Float64, shape, status, elread);
    }

    /** `get_binary`: ValueError unless the tag is 'bnry', then one of the three readers. */
    method GetBinary() returns (r: Result<NdArray>)
      requires Valid()
      ensures h.CurrentCell().Missing? ==> r == Failure(RuntimeError(h.CurrentCell().status))
      ensures h.CurrentCell().Found? ==> r == GetBinaryOf(h.CurrentCell().cell)
    {
      var valtype := GetTypeOfValue();
      if valtype.Failure? {
        return Failure(valtype.error);
      }
      if valtype.value != "bnry" {
        return Failure(ValueError("Not a binary value"));
      }
      var p := GetArrayParameters();
      if p.Failure? {
        return Failure(p.error);
      }
      match ElementKind(p.value.params.elunsigned, p.value.params.elsigned)
      case UInt32 => r := GetIntegerArray(p.value.shape, false);
      case Int32 => r := GetIntegerArray(p.value.shape, true);
      case Float64 => r := GetRealArray(p.value.shape);
    }

    /** `get`: `(None, '')`, `(array, 'bnry')` or `(text, tag)` according to the tag. */
    method Get() returns (r: Result<Got>)
      requires Valid()
      ensures r == GetAt(h.CurrentCell())
    {
      var valtype := GetTypeOfValue();
      if valtype.Failure? {
        return Failure(valtype.error);
      }
      match ReaderFor(valtype.value)
      case NoValue =>
        r := Success(Got(PyNone, valtype.value));
      case BinaryReader =>
        var arr := GetBinary();
        if arr.Failure? {
          return Failure(arr.error);
        }
        r := Success(Got(PyArray(arr.value), valtype.value));
      case TextReader =>
        var val := GetValue();
        // A textual tag means the cell is not binary, so `get_value` cannot raise here.
        assert val.Success?;
        r := Success(Got(ToPy(val.value), valtype.value));
    }

    // Tree flattener.

    /**
      `datablocks`: rewind, then one datablock dictionary per datablock,
      stopping when `next_datablock` raises StopIteration.
    */
    method Datablocks() returns (r: Result<seq<BlockDict>>)
      requires Valid()
      modifies h
      ensures Valid()
      ensures r == DocumentSnapshot(h.doc)
      ensures r.Success? ==> h.block == At(|h.doc| - 1) && AtEndOfBlock()
    {
      var rewound := RewindDatablock();
      if rewound.Failure? {
        return Failure(rewound.error);
      }
      ghost var rs := BlockResults(h.doc);
      var blocks: seq<BlockDict> := [];
      while true
        invariant Valid() && h.block.At? && h.block.index == |blocks|
        invariant h.category == Unset && h.column == Unset && h.row == Unset
        invariant Collect(rs, |blocks|) == Success(blocks)
        decreases |h.doc| - |blocks|
      {
        var appended := AppendDatablock(rs, blocks);
        if appended.Failure? {
          CollectOfPrefix(rs, |blocks| + 1, |h.doc|);
          return Failure(appended.error);
        }
        blocks := appended.value;
        var next := NextDatablock();
        if next.Failure? {
          assert next.error == StopIteration;
          assert |blocks| == |h.doc|;
          break;
        }
      }
      DocumentSnapshotOfCollect(h.doc, blocks);
      r := Success(blocks);
    }

    /** `blocks.append(self.datablock_asdict())` for the datablock under the cursor. */
    method AppendDatablock(ghost rs: seq<Result<BlockDict>>, blocks: seq<BlockDict>) returns (r: Result<seq<BlockDict>>)
      requires Valid() && h.block.At? && h.block.index == |blocks|
      requires rs == BlockResults(h.doc) && Collect(rs, |blocks|) == Success(blocks)
      modifies h
      ensures Valid() && h.block == old(h.block)
      ensures r == Collect(rs, |blocks| + 1)
      ensures r.Success? ==> AtEndOfBlock()
    {
      var bd := CurrentDatablockAsDict();
      BlockResultsAt(h.doc, |blocks|);
      if bd.Failure? {
        return Failure(bd.error);
      }
      CollectStep(rs, |blocks|, blocks);
      r := Success(blocks + [bd.value]);
    }

    /**
      `datablock_asdict`: position the datablock cursor by `key`, then one
      category dictionary per category, stopping when `next_category`
      raises StopIteration.
    */
    method DatablockAsDict(key: Key) returns (r: Result<BlockDict>)
      requires Valid()
      modifies h
      ensures Valid()
      ensures var m := old(DatablockKeyMove(key));
              var sel := KeyOutcome(key, m.status);
              && (sel.Failure? ==> r == Failure(sel.error) && unchanged(h))
              && (sel.Success? ==> h.block == m.cursor)
              && (sel.Success? && m.cursor.Unset? ==> r == Failure(RuntimeError(CBF_ARGUMENT)))
              && (sel.Success? && m.cursor.At? ==> r == BlockSnapshot(h.CurrentBlock()))
      ensures r.Success? ==> h.block.At? && AtEndOfBlock()
    {
      if key.Current? {
      } else if key.Name? {
        var found := FindDatablock(key.name);
        if found.Failure? {
          return Failure(found.error);
        }
      } else if key.Index? {
        var selected := SelectDatablock(key.index);
        if selected.Failure? {
          return Failure(selected.error);
        }
      } else {
        return Failure(TypeError);
      }
      r := CurrentDatablockAsDict();
    }

    /** `datablock_asdict()` with no key: the dictionary of the datablock under the cursor. */
    method CurrentDatablockAsDict() returns (r: Result<BlockDict>)
      requires Valid()
      modifies h
      ensures Valid() && h.block == old(h.block)
      ensures h.block.Unset? ==> r == Failure(RuntimeError(CBF_ARGUMENT))
      ensures h.block.At? ==> r == BlockSnapshot(h.CurrentBlock())
      ensures r.Success? ==> h.block.At? && AtEndOfBlock()
    {
      var name := DatablockName();
      if name.Failure? {
        return Failure(name.error);
      }
      var cats := CategoriesOfBlock();
      if cats.Failure? {
        return Failure(cats.error);
      }
      r := Success(BlockDict(name.value, cats.value));
    }

    /**
      The loop of `datablock_asdict`: rewind the category cursor, then
      `category_asdict` on each category until `next_category` raises
      StopIteration.
    */
    method CategoriesOfBlock() returns (r: Result<seq<CategoryDict>>)
      requires Valid() && h.block.At?
      modifies h
      ensures Valid() && h.block == old(h.block)
      ensures r.Success? ==> BlockSnapshot(h.CurrentBlock()) == Success(BlockDict(h.CurrentBlock().name, r.value))
      ensures r.Failure? ==> BlockSnapshot(h.CurrentBlock()) == Failure(r.error)
      ensures r.Success? ==> AtEndOfBlock()
    {
      ghost var b := h.CurrentBlock();
      var rewound := RewindCategory();
      if rewound.Failure? {
        return Failure(rewound.error);
      }
      ghost var rs := CategoryResults(b.categories);
      var cats: seq<CategoryDict> := [];
      while true
        invariant Valid() && h.block == old(h.block) && h.CurrentBlock() == b
        invariant h.category.At? && h.category.index == |cats|
        invariant h.column == Unset && h.row == Unset
        invariant Collect(rs, |cats|) == Success(cats)
        decreases |b.categories| - |cats|
      {
        var appended := AppendCategory(rs, cats);
        if appended.Failure? {
          CollectOfPrefix(rs, |cats| + 1, |b.categories|);
          return Failure(appended.error);
        }
        cats := appended.value;
        var next := NextCategory();
        if next.Failure? {
          assert next.error == StopIteration;
          assert |cats| == |b.categories| > 0;
          assert Collect(rs, |b.categories|) == Success(cats);
          break;
        }
      }
      BlockSnapshotOfCollect(b, cats);
      r := Success(cats);
    }

    /** `cats.append(self.category_asdict())` for the category under the cursor. */
    method AppendCategory(ghost rs: seq<Result<CategoryDict>>, cats: seq<CategoryDict>) returns (r: Result<seq<CategoryDict>>)
      requires Valid() && h.block.At? && h.category.At? && h.category.index == |cats|
      requires rs == CategoryResults(h.CurrentBlock().categories) && Collect(rs, |cats|) == Success(cats)
      modifies h
      ensures Valid() && h.block == old(h.block) && h.category == old(h.category)
      ensures r == Collect(rs, |cats| + 1)
      ensures r.Success? ==> h.column == LastColumn(h.CurrentCategory(), old(h.column)) && h.row == LastRow(h.CurrentCategory())
    {
      var cd := CurrentCategoryAsDict();
      CategoryResultsAt(h.CurrentBlock().categories, |cats|);
      if cd.Failure? {
        return Failure(cd.error);
      }
      CollectStep(rs, |cats|, cats);
      r := Success(cats + [cd.value]);
    }

    /**
      `category_asdict`: position the category cursor by `key`, read the
      column names and the row-0 tags, then every cell in row-major order.
    */
    method CategoryAsDict(key: Key) returns (r: Result<CategoryDict>)
      requires Valid()
      modifies h
      ensures Valid() && h.block == old(h.block)
      ensures var m := old(CategoryKeyMove(key));
              var sel := KeyOutcome(key, m.status);
              && (sel.Failure? ==> r == Failure(sel.error) && unchanged(h))
              && (sel.Success? ==> h.category == m.cursor)
              && (sel.Success? && m.cursor.Unset? ==> r == Failure(RuntimeError(CBF_ARGUMENT)))
              && (sel.Success? && m.cursor.At? ==> r == CategorySnapshot(h.CurrentCategory()))
      ensures r.Success? ==>
                && h.category.At?
                && h.column == LastColumn(h.CurrentCategory(), if key.Current? then old(h.column) else Unset)
                && h.row == LastRow(h.CurrentCategory())
    {
      if key.Current? {
      } else if key.Name? {
        var found := FindCategory(key.name);
        if found.Failure? {
          return Failure(found.error);
        }
      } else if key.Index? {
        var selected := SelectCategory(key.index);
        if selected.Failure? {
          return Failure(selected.error);
        }
      } else {
        return Failure(TypeError);
      }
      r := CurrentCategoryAsDict();
    }

    /** `category_asdict()` with no key: the dictionary of the category under the cursor. */
    method CurrentCategoryAsDict() returns (r: Result<CategoryDict>)
      requires Valid()
      modifies h
      ensures Valid() && h.block == old(h.block) && h.category == old(h.category)
      ensures h.category.Unset? ==> r == Failure(RuntimeError(CBF_ARGUMENT))
      ensures h.category.At? ==> r == CategorySnapshot(h.CurrentCategory())
      ensures r.Success? ==>
                h.category.At? && h.column == LastColumn(h.CurrentCategory(), old(h.column)) && h.row == LastRow(h.CurrentCategory())
    {
      var name := CategoryName();
      if name.Failure? {
        return Failure(name.error);
      }
      ghost var cat := h.CurrentCategory();
      var ncols := CountColumns();
      var nrows := CountRows();
      var _ := RewindRow();
      var _ := RewindRow();
      var headers := ColumnHeaders(ncols.value);
      if headers.Failure? {
        return Failure(headers.error);
      }
      var _ := RewindRow();
      var colvals := ReadRows(Table(cat), ncols.value, nrows.value);
      if colvals.Failure? {
        return Failure(colvals.error);
      }
      var colnames, coltypes := headers.value.0, headers.value.1;
      var values := ValuesDict(colnames, colvals.value);
      r := Success(CategoryDict(name.value, colnames, coltypes, values));
    }

    /**
      The first loop of `category_asdict`: with the row cursor at row 0,
      select each column in turn and record its name and tag.
    */
    method ColumnHeaders(ncols: int) returns (r: Result<(seq<string>, seq<string>)>)
      requires Valid() && h.category.At? && h.row == At(0)
      requires ncols == |h.CurrentCategory().columns|
      modifies h
      ensures Valid() && h.block == old(h.block) && h.category == old(h.category) && h.row == old(h.row)
      ensures r.Failure? <==> ncols > 0 && h.CurrentCategory().rows == 0
      ensures r.Failure? ==> r.error == RuntimeError(CBF_NOTFOUND)
      ensures r.Success? ==> r.value == (ColumnNames(h.CurrentCategory()), ColumnTypes(h.CurrentCategory()))
      ensures r.Success? ==> h.column == LastColumn(h.CurrentCategory(), old(h.column))
    {
      ghost var cat := h.CurrentCategory();
      ghost var col0 := h.column;
      var colnames: seq<string> := [];
      var coltypes: seq<string> := [];
      var i := 0;
      while i < ncols
        invariant 0 <= i <= ncols
        invariant h.Valid() && h.block == old(h.block) && h.category == old(h.category) && h.row == At(0)
        invariant h.CurrentCategory() == cat
        invariant h.column == (if i > 0 then At(i - 1) else col0)
        invariant i > 0 ==> cat.rows > 0
        invariant colnames == ColumnNames(cat)[..i]
        invariant |coltypes| == i && forall k :: 0 <= k < i ==> coltypes[k] == TypeTag(CellAt(cat, k, 0))
      {
        var selected := SelectColumn(i);
        assert selected.Success?;
        var colname := ColumnName();
        var coltype := GetTypeOfValue();
        if coltype.Failure? {
          return Failure(coltype.error);
        }
        colnames := colnames + [colname.value];
        coltypes := coltypes + [coltype.value];
        i := i + 1;
      }
      assert colnames == ColumnNames(cat);
      assert coltypes == ColumnTypes(cat);
      r := Success((colnames, coltypes));
    }

    /**
      The state of the nested loop of `category_asdict` after rows
      `0 .. row-1` of table `t` were read without an exception: the column
      lists hold those rows and the cursors stand on the last cell read.
    */
    ghost predicate RowsRead(t: seq<seq<Result<Got>>>, ncols: int, row: nat, colvals: seq<seq<PyValue>>, row0: Cursor, col0: Cursor)
      reads this, h
    {
      && Valid() && h.category.At? && t == Table(h.CurrentCategory())
      && ncols == |h.CurrentCategory().columns| && row <= |t|
      && colvals == ColumnsUpTo(t, ncols, row) && TableError(t, row).None?
      && CursorsAfterRows(h.row, h.column, row, ncols, row0, col0)
    }

    /**
      The nested loop of `category_asdict`: for each row, select it, then
      `get` each column's cell and append its value to that column's list.
      The first exception in row-major order propagates.
    */
    method ReadRows(ghost t: seq<seq<Result<Got>>>, ncols: int, nrows: int) returns (r: Result<seq<seq<PyValue>>>)
      requires Valid() && h.category.At? && t == Table(h.CurrentCategory())
      requires ncols == |h.CurrentCategory().columns| && nrows == |t|
      modifies h
      ensures Valid() && h.block == old(h.block) && h.category == old(h.category)
      ensures r.Success? <==> TableError(t, nrows).None?
      ensures r.Failure? ==> TableError(t, nrows) == Some(r.error)
      ensures r.Success? ==> r.value == ColumnsUpTo(t, ncols, nrows)
      ensures r.Success? ==> CursorsAfterRows(h.row, h.column, nrows, ncols, old(h.row), old(h.column))
    {
      ghost var row0, col0 := h.row, h.column;
      var colvals: seq<seq<PyValue>> := seq(ncols, _ => []);
      var row := 0;
      ColumnsUpToZero(t, ncols);
      while row < nrows
        invariant 0 <= row <= nrows
        invariant h.block == old(h.block) && h.category == old(h.category)
        invariant RowsRead(t, ncols, row, colvals, row0, col0)
      {
        var next := ReadRow(t, row0, col0, row, ncols, colvals);
        if next.Failure? {
          TableErrorOfPrefix(t, row + 1, nrows);
          return Failure(next.error);
        }
        colvals := next.value;
        row := row + 1;
      }
      r := Success(colvals);
    }

    /**
      The state of the inner loop of `category_asdict` after cells
      `0 .. c-1` of row `row` were read without an exception: those cells'
      values are appended to their columns and the column cursor is on the
      last of them.
    */
    ghost predicate CellsRead(t: seq<seq<Result<Got>>>, ncols: int, row: nat, c: nat, acc: seq<seq<PyValue>>, col0: Cursor)
      reads this, h
    {
      && Valid() && h.category.At? && t == Table(h.CurrentCategory())
      && ncols == |h.CurrentCategory().columns| && row < |t| && c <= ncols
      && h.row == At(row) && h.column == (if c > 0 then At(c - 1) else col0)
      && acc == RowInProgress(t, ncols, row, c) && FirstError(t[row][..c]).None?
    }

    /**
      One pass of the outer row loop of `category_asdict`: select `row`,
      then `get` each column's cell in turn and append its value.
    */
    method ReadRow(ghost t: seq<seq<Result<Got>>>, ghost row0: Cursor, ghost col0: Cursor,
                   row: nat, ncols: int, colvals: seq<seq<PyValue>>)
      returns (r: Result<seq<seq<PyValue>>>)
      requires RowsRead(t, ncols, row, colvals, row0, col0) && row < |t|
      modifies h
      ensures Valid() && h.block == old(h.block) && h.category == old(h.category)
      ensures r.Failure? ==> TableError(t, row + 1) == Some(r.error)
      ensures r.Success? ==> RowsRead(t, ncols, row + 1, r.value, row0, col0)
    {
      ghost var colStart := h.column;
      var selected := SelectRow(row);
      assert h.row == At(row);
      var acc := colvals;
      var c := 0;
      RowInProgressEnds(t, ncols, row);
      while c < ncols
        invariant 0 <= c <= ncols
        invariant h.block == old(h.block) && h.category == old(h.category)
        invariant CellsRead(t, ncols, row, c, acc, colStart)
      {
        var got := GetCell(row, c);
        if got.Failure? {
          RowFailure(t, row, c);
          return Failure(got.error);
        }
        RowStep(t, ncols, row, c);
        acc := acc[c := acc[c] + [got.value.value]];
        c := c + 1;
      }
      assert t[row][..ncols] == t[row];
      r := Success(acc);
    }

    /** `select_column(c)` then `get()` with the row cursor on `row`: the table entry at that position. */
    method GetCell(row: nat, c: nat) returns (got: Result<Got>)
      requires Valid() && h.category.At? && h.row == At(row)
      requires row < h.CurrentCategory().rows && c < |h.CurrentCategory().columns|
      modifies h
      ensures Valid() && h.block == old(h.block) && h.category == old(h.category) && h.row == old(h.row)
      ensures h.column == At(c)
      ensures got == Table(h.CurrentCategory())[row][c]
    {
      var selected := SelectColumn(c);
      assert h.column == At(c);
      got := Get();
      assert got == GetOf(CellAt(h.CurrentCategory(), c, row));
    }

    /** The last loop of `category_asdict`: `values[colnames[i]] = colvals[i]` for each i. */
    method ValuesDict(colnames: seq<string>, colvals: seq<seq<PyValue>>) returns (values: map<string, seq<PyValue>>)
      requires |colnames| == |colvals|
      ensures values == ValuesMap(colnames, colvals)
    {
      values := map[];
      var k := 0;
      while k < |colnames|
        invariant 0 <= k <= |colnames|
        invariant values == ValuesMap(colnames[..k], colvals[..k])
      {
        assert colnames[..k + 1][..k] == colnames[..k] && colvals[..k + 1][..k] == colvals[..k];
        values := values[colnames[k] := colvals[k]];
        k := k + 1;
      }
      assert colnames[..k] == colnames && colvals[..k] == colvals;
    }
  }
}
