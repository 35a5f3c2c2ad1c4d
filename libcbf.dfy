/**
  An abstract libcbf handle, the native library the wrapper drives.

  The document is a nested value (datablocks, categories, columns, rows
  of cells) and the handle keeps one cursor per level. Every call returns
  an integer status as libcbf does. The behaviour written here is what the
  wrapper assumes of the library; the library's own parser, tree and codec
  are not part of this model.
*/
module LibCbf {
  import opened Status

  /** The metadata `cbf_get_arrayparameters_wdims` reports for a binary cell. */
  datatype Params = Params(
    compression: nat, id: int, elsize: nat, elsigned: int, elunsigned: int,
    nelem: nat, minelem: int, maxelem: int, realarray: int, byteorder: Option<string>,
    dimfast: nat, dimmid: nat, dimslow: nat, padding: nat)

  /** What a failed parameter query leaves in the wrapper's out-variables. */
  const NoParams := Params(0, 0, 0, 0, 0, 0, 0, 0, 0, None, 0, 0, 0, 0)

  /**
    A cell: absent (libcbf reports no type), textual with its type tag
    ('null', 'word', 'dblq', 'sglq' or 'text') and literal, or binary with
    its parameters and what the codec answers when asked to decode it: a
    status and the number of elements it can deliver.
  */
  datatype Cell =
    | Absent
    | Textual(kind: string, text: string)
    | Binary(params: Params, codecStatus: int, available: nat)

  datatype Column = Column(name: string, cells: seq<Cell>)
  datatype Category = Category(name: string, rows: nat, columns: seq<Column>)
  datatype Block = Block(name: string, categories: seq<Category>)

  /** Counts travel through a C int and indices through a C unsigned int. */
  const C_INT_LIMIT: int := 0x8000_0000

  /** Every column of a category has the category's row count. */
  ghost predicate CategoryWF(cat: Category) {
    && cat.rows < C_INT_LIMIT
    && |cat.columns| < C_INT_LIMIT
    && forall k :: 0 <= k < |cat.columns| ==> |cat.columns[k].cells| == cat.rows
  }

  ghost predicate BlockWF(b: Block) {
    && |b.categories| < C_INT_LIMIT
    && forall c :: 0 <= c < |b.categories| ==> CategoryWF(b.categories[c])
  }

  ghost predicate DocumentWF(doc: seq<Block>) {
    && |doc| < C_INT_LIMIT
    && forall b :: 0 <= b < |doc| ==> BlockWF(doc[b])
  }

  /** A cursor is either not positioned or at an index of its scope. */
  datatype Cursor = Unset | At(index: nat)

  /** The status of a cursor call and the cursor it leaves behind. */
  datatype Move = Move(status: int, cursor: Cursor)

  /** Cell under the column and row cursors, or the status of why there is none. */
  datatype Lookup = Found(cell: Cell) | Missing(status: int)

  function BlockNames(doc: seq<Block>): seq<string> {
    seq(|doc|, i requires 0 <= i < |doc| => doc[i].name)
  }

  function CategoryNames(b: Block): seq<string> {
    seq(|b.categories|, i requires 0 <= i < |b.categories| => b.categories[i].name)
  }

  /** Index of the first entry called `name`. */
  function FirstNamed(names: seq<string>, name: string): (r: Option<nat>)
    ensures r.Some? ==> r.value < |names| && names[r.value] == name
    ensures r.Some? ==> forall j :: 0 <= j < r.value ==> names[j] != name
    ensures r.None? <==> name !in names
  {
    if |names| == 0 then None
    else if names[0] == name then Some(0)
    else match FirstNamed(names[1..], name)
      case None => None
      case Some(k) => Some(k + 1)
  }

  /** Rewind positions the cursor on the first entry; an empty scope has none. */
  function RewindStep(count: nat, cur: Cursor): (m: Move)
    ensures m.status == 0 <==> count > 0
    ensures m.status == 0 ==> m.cursor == At(0)
    ensures m.status != 0 ==> m == Move(CBF_NOTFOUND, cur)
  {
    if count == 0 then Move(CBF_NOTFOUND, cur) else Move(0, At(0))
  }

  /** Next steps to the following entry; past the last one it reports CBF_NOTFOUND. */
  function NextStep(cur: Cursor, count: nat): (m: Move)
    ensures m.status == 0 <==> cur.At? && cur.index + 1 < count
    ensures m.status == 0 ==> m.cursor == At(cur.index + 1)
    ensures m.status != 0 ==> m.cursor == cur
    ensures cur.At? && m.status != 0 ==> m.status == CBF_NOTFOUND
  {
    match cur
    case Unset => Move(CBF_ARGUMENT, cur)
    case At(i) => if i + 1 < count then Move(0, At(i + 1)) else Move(CBF_NOTFOUND, cur)
  }

  /** Select positions on a zero-based index, CBF_NOTFOUND when out of range. */
  function SelectStep(index: nat, count: nat, cur: Cursor): (m: Move)
    ensures m.status == 0 <==> index < count
    ensures m.status == 0 ==> m.cursor == At(index)
    ensures m.status != 0 ==> m == Move(CBF_NOTFOUND, cur)
  {
    if index < count then Move(0, At(index)) else Move(CBF_NOTFOUND, cur)
  }

  /** Find positions on the first entry with that exact name, CBF_NOTFOUND when none. */
  function FindStep(names: seq<string>, name: string, cur: Cursor): (m: Move)
    ensures m.status == 0 <==> name in names
    ensures m.status == 0 ==> m.cursor.At? && m.cursor.index < |names| && names[m.cursor.index] == name
    ensures m.status != 0 ==> m == Move(CBF_NOTFOUND, cur)
  {
    match FirstNamed(names, name)
    case None => Move(CBF_NOTFOUND, cur)
    case Some(k) => Move(0, At(k))
  }

  /** `cbf_get_typeofvalue`: no type string for an absent cell. */
  function TagOf(cell: Cell): Option<string> {
    match cell
    case Absent => None
    case Textual(kind, _) => Some(kind)
    case Binary(_, _, _) => Some("bnry")
  }

  /** `cbf_get_value`: CBF_BINARY for a binary cell, a null string for an absent one. */
  function ValueOf(cell: Cell): (r: (int, Option<string>))
    ensures r.0 == CBF_BINARY <==> cell.Binary?
    ensures r.0 != CBF_BINARY ==> r.0 == 0
  {
    match cell
    case Absent => (0, None)
    case Textual(_, text) => (0, Some(text))
    case Binary(_, _, _) => (CBF_BINARY, None)
  }

  /** `cbf_get_arrayparameters_wdims`: CBF_ASCII for a cell that is not binary. */
  function ParamsOf(cell: Cell): (r: (int, Params))
    ensures r.0 == 0 <==> cell.Binary?
    ensures cell.Binary? ==> r.1 == cell.params
    ensures !cell.Binary? ==> r.0 == CBF_ASCII
  {
    match cell
    case Binary(p, _, _) => (0, p)
    case _ => (CBF_ASCII, NoParams)
  }

  /**
    `cbf_get_integerarray` / `cbf_get_realarray` asked for `requested`
    elements: the codec fills at most that many and reports its status.
  */
  function ReadArray(cell: Cell, requested: nat): (r: (int, nat))
    ensures r.1 <= requested
    ensures cell.Binary? ==> r.0 == cell.codecStatus
    ensures cell.Binary? ==> (r.1 == requested <==> cell.available >= requested)
    ensures !cell.Binary? ==> r == (CBF_ASCII, 0)
  {
    match cell
    case Binary(_, st, available) => (st, if available < requested then available else requested)
    case _ => (CBF_ASCII, 0)
  }

  /** The handle: the document and the four cursors. */
  class Handle {
    const doc: seq<Block>
    var block: Cursor
    var category: Cursor
    var column: Cursor
    var row: Cursor

    /** A child cursor is only positioned inside a positioned parent. */
    ghost predicate Valid()
      reads this
    {
      && DocumentWF(doc)
      && (block.At? ==> block.index < |doc|)
      && (category.At? ==> block.At? && category.index < |doc[block.index].categories|)
      && (column.At? ==> category.At? && column.index < |doc[block.index].categories[category.index].columns|)
      && (row.At? ==> category.At?)
    }

    constructor (d: seq<Block>)
      requires DocumentWF(d)
      ensures Valid() && doc == d
      ensures block == Unset && category == Unset && column == Unset && row == Unset
    {
      doc := d;
      block, category, column, row := Unset, Unset, Unset, Unset;
    }

    function CurrentBlock(): (b: Block)
      reads this
      requires Valid() && block.At?
      ensures BlockWF(b)
    {
      doc[block.index]
    }

    function CurrentCategory(): (cat: Category)
      reads this
      requires Valid() && category.At?
      ensures CategoryWF(cat)
    {
      assert BlockWF(doc[block.index]);
      CurrentBlock().categories[category.index]
    }

    function NumCategories(): nat
      reads this
      requires Valid()
    {
      if block.At? then |CurrentBlock().categories| else 0
    }

    // What each cursor call does, as a function of the current state.

    function RewindDatablockMove(): Move reads this { RewindStep(|doc|, block) }
    function NextDatablockMove(): Move reads this { NextStep(block, |doc|) }
    function FindDatablockMove(name: string): Move reads this { FindStep(BlockNames(doc), name, block) }
    function SelectDatablockMove(index: nat): Move reads this { SelectStep(index, |doc|, block) }

    function RewindCategoryMove(): Move
      reads this
      requires Valid()
    {
      if block.Unset? then Move(CBF_ARGUMENT, category) else RewindStep(NumCategories(), category)
    }

    function NextCategoryMove(): Move
      reads this
      requires Valid()
    {
      if block.Unset? then Move(CBF_ARGUMENT, category) else NextStep(category, NumCategories())
    }

    function FindCategoryMove(name: string): Move
      reads this
      requires Valid()
    {
      if block.Unset? then Move(CBF_ARGUMENT, category)
      else FindStep(CategoryNames(CurrentBlock()), name, category)
    }

    function SelectCategoryMove(index: nat): Move
      reads this
      requires Valid()
    {
      if block.Unset? then Move(CBF_ARGUMENT, category) else SelectStep(index, NumCategories(), category)
    }

    function SelectColumnMove(index: nat): Move
      reads this
      requires Valid()
    {
      if category.Unset? then Move(CBF_ARGUMENT, column)
      else SelectStep(index, |CurrentCategory().columns|, column)
    }

    function RewindRowMove(): Move
      reads this
    {
      if category.Unset? then Move(CBF_ARGUMENT, row) else Move(0, At(0))
    }

    function SelectRowMove(index: nat): Move
      reads this
      requires Valid()
    {
      if category.Unset? then Move(CBF_ARGUMENT, row) else SelectStep(index, CurrentCategory().rows, row)
    }

    /** The cell the value calls read: the column cursor's column at the row cursor's row. */
    function CurrentCell(): (l: Lookup)
      reads this
      requires Valid()
      ensures l.Missing? ==> l.status != 0
    {
      if column.Unset? || row.Unset? then Missing(CBF_ARGUMENT)
      else if row.index >= CurrentCategory().rows then Missing(CBF_NOTFOUND)
      else Found(CurrentCategory().columns[column.index].cells[row.index])
    }

    // Datablock level: moving the datablock cursor unpositions the cursors below it.

    method RewindDatablock() returns (status: int)
      requires Valid()
      modifies this
      ensures Valid() && status == old(RewindDatablockMove()).status && block == old(RewindDatablockMove()).cursor
      ensures status == 0 ==> category == Unset && column == Unset && row == Unset
      ensures status != 0 ==> unchanged(this)
    {
      var m := RewindDatablockMove();
      status := m.status;
      if status == 0 {
        block, category, column, row := m.cursor, Unset, Unset, Unset;
      }
    }

    method NextDatablock() returns (status: int)
      requires Valid()
      modifies this
      ensures Valid() && status == old(NextDatablockMove()).status && block == old(NextDatablockMove()).cursor
      ensures status == 0 ==> category == Unset && column == Unset && row == Unset
      ensures status != 0 ==> unchanged(this)
    {
      var m := NextDatablockMove();
      status := m.status;
      if status == 0 {
        block, category, column, row := m.cursor, Unset, Unset, Unset;
      }
    }

    method FindDatablock(name: string) returns (status: int)
      requires Valid()
      modifies this
      ensures Valid() && status == old(FindDatablockMove(name)).status && block == old(FindDatablockMove(name)).cursor
      ensures status == 0 ==> category == Unset && column == Unset && row == Unset
      ensures status != 0 ==> unchanged(this)
    {
      var m := FindDatablockMove(name);
      status := m.status;
      if status == 0 {
        block, category, column, row := m.cursor, Unset, Unset, Unset;
      }
    }

    method SelectDatablock(index: nat) returns (status: int)
      requires Valid()
      modifies this
      ensures Valid() && status == old(SelectDatablockMove(index)).status && block == old(SelectDatablockMove(index)).cursor
      ensures status == 0 ==> category == Unset && column == Unset && row == Unset
      ensures status != 0 ==> unchanged(this)
    {
      var m := SelectDatablockMove(index);
      status := m.status;
      if status == 0 {
        block, category, column, row := m.cursor, Unset, Unset, Unset;
      }
    }

    method CountDatablocks() returns (status: int, count: int)
      ensures status == 0 && count == |doc|
    {
      status, count := 0, |doc|;
    }

    method DatablockName() returns (status: int, name: Option<string>)
      requires Valid()
      ensures status == 0 <==> block.At?
      ensures block.At? ==> name == Some(CurrentBlock().name)
      ensures block.Unset? ==> status == CBF_ARGUMENT && name == None
    {
      if block.Unset? {
        status, name := CBF_ARGUMENT, None;
      } else {
        status, name := 0, Some(CurrentBlock().name);
      }
    }

    // Category level: moving the category cursor unpositions the column and row cursors.

    method RewindCategory() returns (status: int)
      requires Valid()
      modifies this
      ensures Valid() && block == old(block)
      ensures status == old(RewindCategoryMove()).status && category == old(RewindCategoryMove()).cursor
      ensures status == 0 ==> column == Unset && row == Unset
      ensures status != 0 ==> unchanged(this)
    {
      var m := RewindCategoryMove();
      status := m.status;
      if status == 0 {
        category, column, row := m.cursor, Unset, Unset;
      }
    }

    method NextCategory() returns (status: int)
      requires Valid()
      modifies this
      ensures Valid() && block == old(block)
      ensures status == old(NextCategoryMove()).status && category == old(NextCategoryMove()).cursor
      ensures status == 0 ==> column == Unset && row == Unset
      ensures status != 0 ==> unchanged(this)
    {
      var m := NextCategoryMove();
      status := m.status;
      if status == 0 {
        category, column, row := m.cursor, Unset, Unset;
      }
    }

    method FindCategory(name: string) returns (status: int)
      requires Valid()
      modifies this
      ensures Valid() && block == old(block)
      ensures status == old(FindCategoryMove(name)).status && category == old(FindCategoryMove(name)).cursor
      ensures status == 0 ==> column == Unset && row == Unset
      ensures status != 0 ==> unchanged(this)
    {
      var m := FindCategoryMove(name);
      status := m.status;
      if status == 0 {
        category, column, row := m.cursor, Unset, Unset;
      }
    }

    method SelectCategory(index: nat) returns (status: int)
      requires Valid()
      modifies this
      ensures Valid() && block == old(block)
      ensures status == old(SelectCategoryMove(index)).status && category == old(SelectCategoryMove(index)).cursor
      ensures status == 0 ==> column == Unset && row == Unset
      ensures status != 0 ==> unchanged(this)
    {
      var m := SelectCategoryMove(index);
      status := m.status;
      if status == 0 {
        category, column, row := m.cursor, Unset, Unset;
      }
    }

    method CountCategories() returns (status: int, count: int)
      requires Valid()
      ensures status == 0 <==> block.At?
      ensures block.At? ==> count == |CurrentBlock().categories|
      ensures block.Unset? ==> status == CBF_ARGUMENT
    {
      if block.Unset? {
        status, count := CBF_ARGUMENT, 0;
      } else {
        status, count := 0, |CurrentBlock().categories|;
      }
    }

    method CategoryName() returns (status: int, name: Option<string>)
      requires Valid()
      ensures status == 0 <==> category.At?
      ensures category.At? ==> name == Some(CurrentCategory().name)
      ensures category.Unset? ==> status == CBF_ARGUMENT && name == None
    {
      if category.Unset? {
        status, name := CBF_ARGUMENT, None;
      } else {
        status, name := 0, Some(CurrentCategory().name);
      }
    }

    // Column and row level, both scoped by the category cursor.

    method SelectColumn(index: nat) returns (status: int)
      requires Valid()
      modifies this
      ensures Valid() && block == old(block) && category == old(category) && row == old(row)
      ensures status == old(SelectColumnMove(index)).status && column == old(SelectColumnMove(index)).cursor
    {
      var m := SelectColumnMove(index);
      status := m.status;
      column := m.cursor;
    }

    method CountColumns() returns (status: int, count: int)
      requires Valid()
      ensures status == 0 <==> category.At?
      ensures category.At? ==> count == |CurrentCategory().columns|
      ensures category.Unset? ==> status == CBF_ARGUMENT
    {
      if category.Unset? {
        status, count := CBF_ARGUMENT, 0;
      } else {
        status, count := 0, |CurrentCategory().columns|;
      }
    }

    method ColumnName() returns (status: int, name: Option<string>)
      requires Valid()
      ensures status == 0 <==> column.At?
      ensures column.At? ==> name == Some(CurrentCategory().columns[column.index].name)
      ensures column.Unset? ==> status == CBF_ARGUMENT && name == None
    {
      if column.Unset? {
        status, name := CBF_ARGUMENT, None;
      } else {
        status, name := 0, Some(CurrentCategory().columns[column.index].name);
      }
    }

    method RewindRow() returns (status: int)
      requires Valid()
      modifies this
      ensures Valid() && block == old(block) && category == old(category) && column == old(column)
      ensures status == old(RewindRowMove()).status && row == old(RewindRowMove()).cursor
    {
      var m := RewindRowMove();
      status := m.status;
      row := m.cursor;
    }

    method SelectRow(index: nat) returns (status: int)
      requires Valid()
      modifies this
      ensures Valid() && block == old(block) && category == old(category) && column == old(column)
      ensures status == old(SelectRowMove(index)).status && row == old(SelectRowMove(index)).cursor
    {
      var m := SelectRowMove(index);
      status := m.status;
      row := m.cursor;
    }

    method CountRows() returns (status: int, count: int)
      requires Valid()
      ensures status == 0 <==> category.At?
      ensures category.At? ==> count == CurrentCategory().rows
      ensures category.Unset? ==> status == CBF_ARGUMENT
    {
      if category.Unset? {
        status, count := CBF_ARGUMENT, 0;
      } else {
        status, count := 0, CurrentCategory().rows;
      }
    }

    // Value calls on the current cell; none of them moves a cursor.

    method GetTypeOfValue() returns (status: int, tag: Option<string>)
      requires Valid()
      ensures CurrentCell().Missing? ==> status == CurrentCell().status && tag == None
      ensures CurrentCell().Found? ==> status == 0 && tag == TagOf(CurrentCell().cell)
    {
      match CurrentCell()
      case Missing(s) => status, tag := s, None;
      case Found(c) => status, tag := 0, TagOf(c);
    }

    method GetValue() returns (status: int, val: Option<string>)
      requires Valid()
      ensures CurrentCell().Missing? ==> status == CurrentCell().status && val == None
      ensures CurrentCell().Found? ==> (status, val) == ValueOf(CurrentCell().cell)
    {
      match CurrentCell()
      case Missing(s) => status, val := s, None;
      case Found(c) => status, val := ValueOf(c).0, ValueOf(c).1;
    }

    method GetArrayParameters() returns (status: int, params: Params)
      requires Valid()
      ensures CurrentCell().Missing? ==> status == CurrentCell().status && params == NoParams
      ensures CurrentCell().Found? ==> (status, params) == ParamsOf(CurrentCell().cell)
    {
      match CurrentCell()
      case Missing(s) => status, params := s, NoParams;
      case Found(c) => status, params := ParamsOf(c).0, ParamsOf(c).1;
    }

    /** Decodes the current array into a caller buffer of `requested` elements of `elsize` bytes. */
    method GetArray(elsize: nat, requested: nat) returns (status: int, elread: nat)
      requires Valid()
      ensures elread <= requested
      ensures CurrentCell().Missing? ==> status == CurrentCell().status && elread == 0
      ensures CurrentCell().Found? ==> (status, elread) == ReadArray(CurrentCell().cell, requested)
    {
      match CurrentCell()
      case Missing(s) => status, elread := s, 0;
      case Found(c) => status, elread := ReadArray(c, requested).0, ReadArray(c, requested).1;
    }
  }
}
