# CBF ctypes wrapper, modelled in Dafny

`cbf.py` is a Python (ctypes) wrapper around libcbf, the C library that
reads Crystallographic Binary Files. A CBF document is a list of
datablocks. Each datablock holds categories, and each category is a table
of named columns over a number of rows. Each cell is absent, holds a
textual literal with a type tag (`word`, `dblq`, `sglq`, `text`, `null`)
or holds a compressed binary array.

libcbf walks the document through four cursors: datablock, category,
column and row. Every call returns an integer status. The wrapper's
`CBF` class turns each status into a Python outcome and builds Python
values on top:

- `_check`, `_get_str`, `_get_int`, `_next`, `_find` and `_select` turn
  a status into a value, StopIteration, KeyError, IndexError or a
  RuntimeError carrying the status;
- `get`, `get_binary`, `get_value` and `get_arrayparameters` read the
  cell under the cursors;
- `get_integerarray` and `get_realarray` accept a decoded array only if
  the codec filled the whole requested shape;
- `category_asdict`, `datablock_asdict` and `datablocks` flatten the
  tree into dictionaries and lists.

The Dafny project has six modules:

- `Status` (status.dfy) holds the status constants, Python exceptions as
  an `Error` datatype and the status helpers. A raised exception is a
  `Failure` result. Besides the wrapper's own exceptions, `Error` has the
  TypeError and ArgumentError that ctypes raises for an argument it
  cannot convert.
- `Shape` (shape.dfy) is the shape cascade of `get_arrayparameters` and
  `np.prod`.
- `Dispatch` (dispatch.dfy) covers which reader `get` calls, which
  element type `get_binary` allocates, and the count check of the array
  readers.
- `LibCbf` (libcbf.dfy) is an abstract libcbf handle. It is a class whose
  fields are the document and the four cursors. Its methods return
  statuses. It states what the wrapper assumes of the library; the
  library itself is not part of this model.
- `Snapshot` (snapshot.dfy) holds reference functions for what `get`,
  `category_asdict`, `datablock_asdict` and `datablocks` produce, as
  functions of the document, with the lemmas about them.
- `Cbf` (cbf.dfy) is the `CBF` class. It holds a `Handle`; its methods
  mirror the Python methods and are proved against `Status`, `Dispatch`
  and `Snapshot`. The loops of the three flatteners are imperative loops
  with invariants.

The library behaviour assumed in `LibCbf`:

- a rewind positions the cursor on the first entry and reports
  CBF_NOTFOUND in an empty scope;
- a next past the last entry reports CBF_NOTFOUND;
- a call whose parent cursor is not positioned reports CBF_ARGUMENT;
- a find positions on the first entry with exactly that name;
- a select out of range reports CBF_NOTFOUND;
- moving a cursor unpositions the cursors below it;
- a failing call leaves every cursor where it was;
- `cbf_rewind_row` always succeeds inside a category, even an empty one;
- a value call reports CBF_ARGUMENT when no column or row is positioned,
  and CBF_NOTFOUND when the row is past the last one.

## Model

| member | source | states |
|---|---|---|
| Status.Check | cbf.py:285-288 | success exactly for status 0; any other status raises RuntimeError(status) |
| Status.GetStr | cbf.py:290-298 | raises RuntimeError(status) exactly for a non-zero status; a null string read with status 0 is "", otherwise the string itself |
| Status.GetInt | cbf.py:300-305 | the integer is returned exactly when the status is 0, otherwise RuntimeError(status) |
| Status.Next | cbf.py:343-350 | success iff status 0; StopIteration iff CBF_NOTFOUND; any other status is RuntimeError(status) |
| Status.Find | cbf.py:378-383 | success iff status 0; KeyError iff CBF_NOTFOUND; any other status is RuntimeError(status) |
| Status.Select | cbf.py:422-428 | success iff status 0; IndexError carrying the index as given iff CBF_NOTFOUND; otherwise RuntimeError(status) |
| Status.GetValue | cbf.py:582-588 | the C string (possibly None) iff status 0; ValueError iff CBF_BINARY; otherwise RuntimeError(status) |
| Status.CursorHelpersAgreeOffNotFound | cbf.py:343-428 | `_next`, `_find` and `_select` agree with `_check` (cbf.py:285-288) on every status except CBF_NOTFOUND |
| Status.CursorHelpersTotal | cbf.py:343-428 | each of `_next`, `_find` and `_select` maps every status to exactly one of success, its own signal exception, or RuntimeError(status) |
| Status.CursorHelpersTreatBinaryAsFault | cbf.py:343-428 | CBF_BINARY is RuntimeError(CBF_BINARY) for `_next`, `_find` and `_select` |
| Status.GetValueStatusesAreCallSpecific | cbf.py:582-588 | `get_value` raises ValueError for CBF_BINARY but RuntimeError for CBF_NOTFOUND, whatever string is returned |
| Status.CheckTreatsNotFoundAsFault | cbf.py:285-288 | `_check`, which the rewinds use, raises RuntimeError(CBF_NOTFOUND) for CBF_NOTFOUND |
| Shape.ShapeOf | cbf.py:504-512 | the shape has 1 to 3 axes, the fastest last; it is `dimfast`, or `nelem` when no axis is declared |
| Shape.ShapeIsDeclaredSuffix | cbf.py:504-512 | the cascade equals the reference rule: drop the leading zero axes on the slow side and keep the rest, or `(nelem,)` when all three are zero |
| Shape.RankFromSlowSide | cbf.py:504-512 | rank 3 iff dimslow is non-zero; rank 2 iff only dimslow is zero; rank 1 iff dimslow and dimmid are both zero |
| Shape.LeadingAxisDeclared | cbf.py:504-510 | when any axis is declared, the slowest axis of the shape is non-zero |
| Shape.Product | cbf.py:539 | the element count `np.prod(shape)` is zero iff some axis is zero |
| Shape.FlatShapeHoldsNelem | cbf.py:511-512 | a dimensionless array's shape holds exactly `nelem` elements |
| Shape.ShapeExamples | cbf.py:504-512 | concrete shapes for 3, 2, 1 and 0 declared axes |
| Dispatch.ReaderFor | cbf.py:252-260 | no value iff the tag is ""; the binary reader iff 'bnry'; the text reader otherwise |
| Dispatch.ElementKind | cbf.py:272-277 | unsigned iff `elunsigned` is truthy; signed iff only `elsigned` is truthy; real iff both are zero |
| Dispatch.AcceptRead | cbf.py:543-545 | the array is returned iff the codec status is 0 and it read exactly `prod(shape)` elements; otherwise RuntimeError(status) |
| Dispatch.ShortReadRejected | cbf.py:543-544 | a short read raises RuntimeError(0) although the codec reported success |
| Dispatch.ElementKindByTruth | cbf.py:272-277 | the branch depends on the two flags only through their truth values |
| Dispatch.UnsignedHasPriority | cbf.py:272-273 | a truthy `elunsigned` selects uint32 whatever `elsigned` is |
| Snapshot.TypeTag | cbf.py:563-573 | the tag is 'bnry' iff the cell is binary or tagged 'bnry'; "" iff the cell has no type or an empty one |
| Snapshot.GetOfBinary | cbf.py:255-257 | `get` on a binary cell succeeds iff the codec reports 0 and delivers `prod(shape)` elements, giving an array of that shape, of the element type the flags choose, tagged 'bnry' |
| Snapshot.GetOfTextual | cbf.py:253-260 | `get` on a textual cell returns `(text, tag)`, or `(None, '')` when the tag is empty |
| Snapshot.GetBinaryOfChecksTag | cbf.py:268-278 | `get_binary` raises ValueError("Not a binary value") iff the tag is not 'bnry'; after the tag check every exception is a RuntimeError |
| Snapshot.GetOfAbsent | cbf.py:250-254 | `get` on a cell without a value returns `(None, '')` |
| Snapshot.GetNeverRaisesValueError | cbf.py:252-260 | since `get` dispatches on the tag, every exception it raises is a RuntimeError |
| Snapshot.GetTagIsTypeTag | cbf.py:252-260 | a successful `get` reports the cell's `get_typeofvalue` tag |
| Snapshot.ColumnTypes | cbf.py:215-219 | one "columns~type" entry per column, the tag read at row 0 |
| Snapshot.ValuesMapAt | cbf.py:229-231 | a column name maps to the values of the last column carrying it, so with distinct names to its own column |
| Snapshot.ValuesMapKeys | cbf.py:229-231 | the keys of "values" are exactly the column names |
| Snapshot.RowFailure | cbf.py:220-226 | a cell that raises after a clean prefix of the row-major walk is the exception `category_asdict` raises |
| Snapshot.RowStep | cbf.py:223-226 | reading a successful cell appends its value to its column's list and to no other |
| Snapshot.TableErrorOfPrefix | cbf.py:220-226 | once a row raises, later rows do not change which exception propagates |
| Snapshot.CategorySnapshotSucceeds | cbf.py:206-233 | `category_asdict` returns a dictionary iff the category has rows (or no columns) and `get` succeeds on every cell |
| Snapshot.CategorySnapshotColumns | cbf.py:206-233 | "name" is the category's name; "columns" and "columns~type" have one entry per column, in column order, the type being the row-0 tag; the "values" keys are the column names |
| Snapshot.CategorySnapshotValues | cbf.py:220-231 | for a column whose name no later column reuses, its list has one entry per row, entry r being the value `get` returns at row r |
| Snapshot.Collect | cbf.py:136-141 | the appended list succeeds iff every step succeeds, holds each step's value in order, and otherwise raises the first exception met |
| Snapshot.CollectOfPrefix | cbf.py:170-175 | after the first exception, later steps do not change which exception propagates |
| Snapshot.BlockSnapshotContents | cbf.py:166-177 | the datablock dictionary has the datablock's name and one category dictionary per category, in order, each equal to `category_asdict` on that category |
| Snapshot.BlockSnapshotFailure | cbf.py:166-177 | `datablock_asdict` raises RuntimeError(NOTFOUND) on a datablock without categories, else the exception of the first category that fails |
| Snapshot.DocumentSnapshotContents | cbf.py:129-142 | `datablocks` returns one datablock dictionary per datablock, in document order |
| Snapshot.DocumentSnapshotFailure | cbf.py:129-142 | `datablocks` raises RuntimeError(NOTFOUND) on an empty document, else the exception of the first datablock that fails |
| Snapshot.CategoryExample | cbf.py:206-233 | a one-column, two-row category whose first cell is absent gets the type "" and the values `[None, '1.5']` |
| Cbf.CUInt | cbf.py:423 | `c_uint(index)` keeps indices in 0..2^32-1 unchanged and wraps negative indices down to -2^32 by adding 2^32; in general the result is below 2^32 and congruent to the index modulo 2^32 |
| Cbf.CBF.constructor | cbf.py:110-117 | a wrapper over a handle on a parsed document, with no cursor positioned |
| Cbf.CBF.RewindDatablock | cbf.py:323-324 | success iff the document has a datablock, positioning at datablock 0 and unpositioning the lower cursors; otherwise RuntimeError(NOTFOUND) and nothing changes |
| Cbf.CBF.NextDatablock | cbf.py:352-353 | steps to the next datablock; StopIteration exactly on the last one; RuntimeError(ARGUMENT) with no datablock positioned; a failure changes nothing |
| Cbf.CBF.FindDatablock | cbf.py:385-386 | success iff the name occurs, positioning on its first occurrence; otherwise KeyError and nothing changes |
| Cbf.CBF.SelectDatablock | cbf.py:430-431 | success iff `c_uint(index)` is in range, positioning there; otherwise IndexError(index) and nothing changes |
| Cbf.CBF.CountDatablocks | cbf.py:402-403 | the number of datablocks |
| Cbf.CBF.DatablockName | cbf.py:457-458 | the current datablock's name, or RuntimeError(ARGUMENT) with none positioned |
| Cbf.CBF.RewindCategory | cbf.py:326-327 | positions at category 0 iff the current datablock has one; RuntimeError(NOTFOUND) in an empty datablock; RuntimeError(ARGUMENT) with no datablock |
| Cbf.CBF.NextCategory | cbf.py:358-359 | steps to the next category; StopIteration exactly on the last one; RuntimeError(ARGUMENT) with no category positioned |
| Cbf.CBF.FindCategory | cbf.py:391-392 | success iff the current datablock has a category of that name, positioning on it; otherwise KeyError, or RuntimeError(ARGUMENT) with no datablock |
| Cbf.CBF.SelectCategory | cbf.py:436-437 | success iff `c_uint(index)` is below the category count; otherwise IndexError(index), or RuntimeError(ARGUMENT) with no datablock |
| Cbf.CBF.CountCategories | cbf.py:408-409 | the number of categories of the current datablock, or RuntimeError(ARGUMENT) |
| Cbf.CBF.CategoryName | cbf.py:463-464 | the current category's name, or RuntimeError(ARGUMENT) |
| Cbf.CBF.SelectColumn | cbf.py:439-440 | success iff `c_uint(index)` is below the column count, positioning the column; otherwise IndexError(index) or RuntimeError(ARGUMENT); other cursors are unchanged |
| Cbf.CBF.CountColumns | cbf.py:414-415 | the number of columns of the current category, or RuntimeError(ARGUMENT) |
| Cbf.CBF.ColumnName | cbf.py:466-467 | the current column's name, or RuntimeError(ARGUMENT) |
| Cbf.CBF.RewindRow | cbf.py:335-336 | inside a category, positions row 0 and succeeds; otherwise RuntimeError(ARGUMENT) |
| Cbf.CBF.SelectRow | cbf.py:442-443 | success iff `c_uint(index)` is below the row count, positioning the row; otherwise IndexError(index) or RuntimeError(ARGUMENT) |
| Cbf.CBF.CountRows | cbf.py:417-418 | the number of rows of the current category, or RuntimeError(ARGUMENT) |
| Cbf.CBF.GetTypeOfValue | cbf.py:563-573 | the current cell's tag ("" when it has none), or the RuntimeError of the missing cell |
| Cbf.CBF.GetValue | cbf.py:576-588 | the literal of a textual cell, None for an absent one, ValueError exactly for a binary one |
| Cbf.CBF.GetArrayParameters | cbf.py:471-526 | for a binary cell, its parameters and the cascade's shape; RuntimeError(ASCII) for any other cell |
| Cbf.CBF.GetIntegerArray | cbf.py:529-545 | an empty shape raises TypeError, because `np.prod(())` is the float 1.0 and `c_size_t` refuses it; otherwise succeeds iff the cell is binary, the codec reports 0 and it delivers `prod(shape)` elements, the array being int32 or uint32 by `elsigned`, and every other failure is a RuntimeError |
| Cbf.CBF.GetRealArray | cbf.py:548-560 | the same for float64 arrays, except that the float count of an empty shape reaches the libcbf call and ctypes raises ArgumentError |
| Cbf.CBF.GetBinary | cbf.py:263-278 | ValueError unless the tag is 'bnry'; otherwise the parameters, the branch on the flags and the count-checked read |
| Cbf.CBF.Get | cbf.py:236-260 | `(None, '')`, `(array, 'bnry')` or `(text, tag)` by the tag, or the exception raised on the way |
| Cbf.CBF.Datablocks | cbf.py:129-142 | the list of every datablock dictionary, or the first exception; on success the cursors are left on the last datablock, its last category, and that category's last column and row |
| Cbf.CBF.AppendDatablock | cbf.py:137 | one more step of the `datablocks` list, leaving the cursors at the end of that datablock's walk |
| Cbf.CBF.DatablockAsDict | cbf.py:145-177 | positions by key (find for a str, select for an int, TypeError for anything else; a failed find or select propagates and a rejected key leaves every cursor unchanged), then the datablock dictionary at the cursor; on success the category cursor is on the last category |
| Cbf.CBF.CurrentDatablockAsDict | cbf.py:166-177 | the dictionary of the current datablock, or RuntimeError(ARGUMENT) with none positioned; on success the cursors are at the end of the category walk |
| Cbf.CBF.CategoriesOfBlock | cbf.py:168-176 | the category list of the current datablock, or the exception that stops it; after the final StopIteration the category cursor is on the last category, the column cursor on its last column (unset if it has none) and the row cursor on its last row |
| Cbf.CBF.AppendCategory | cbf.py:171 | one more step of the category list, leaving the column and row cursors where `category_asdict` leaves them |
| Cbf.CBF.CategoryAsDict | cbf.py:180-233 | positions by key as `datablock_asdict` does, every cursor unchanged when the key is rejected, then the category dictionary at the cursor; on success the column cursor is on the last column (or unchanged with no columns, unset after a find or select) and the row cursor on the last row (row 0 with no rows) |
| Cbf.CBF.CurrentCategoryAsDict | cbf.py:206-233 | the dictionary of the current category, or RuntimeError(ARGUMENT) with none positioned; on success the column cursor is on the last column (unchanged with no columns) and the row cursor on the last row (row 0 with no rows) |
| Cbf.CBF.ColumnHeaders | cbf.py:211-219 | the column names and row-0 tags, leaving the column cursor on the last column; RuntimeError(NOTFOUND) iff the category has columns but no rows |
| Cbf.CBF.ReadRows | cbf.py:220-226 | succeeds iff every cell reads, giving every column's values and leaving the cursors on the last row and last column; otherwise the first exception in row-major order |
| Cbf.CBF.ReadRow | cbf.py:221-226 | from the loop state after `row` clean rows, either reaches the same state one row further (that row's values appended to their columns, the cursors on that row and its last column) or raises the row's first exception, which is then the table's first |
| Cbf.CBF.GetCell | cbf.py:224-225 | `select_column(c)` then `get()` leaves the column cursor on `c` and yields the table entry at that row and column |
| Cbf.CBF.ValuesDict | cbf.py:229-231 | builds the "values" dictionary, equal to the reference map of names to columns |

## Left out

- libcbf itself is not part of this model: its parser, tree and binary
  codec. `LibCbf` states only what the wrapper assumes of it.
  - A decoded array is its element type and shape; element values are not
    modelled.
  - Float contents are not modelled either.
- `__init__` file loading, `read_file`, `fopen` and `__del__` (file I/O
  and handle freeing). The constructor takes an already parsed document.
- Saveframes and block items are not modelled. Neither are
  `rewind_column`, `next_column`, `next_row`, `find_column`, `find_row`
  and `select_blockitem`, since no modelled operation uses them. As
  written, `find_row` refers to an unbound `name` and `select_blockitem`
  to an unbound `f`, so both would raise NameError.
- cbfdump.py and test_cbf.py are not part of this model.
- Cbf.CBF.GetArrayParameters: the returned dictionary is reduced to the
  raw parameters and the shape. `byteorder` is an optional string; the
  other fields are copied through unchanged.
- Cbf.CBF.GetIntegerArray: the element width handed to the codec (4 bytes
  here, 8 in `get_realarray`) is passed as the source passes it. No
  contract states it, because decoding into the buffer is not modelled.
- Cbf.CBF.GetRealArray: likewise, its 8-byte width is passed but not stated.
- Cbf.CBF.GetIntegerArray: `elread != nelems` compares a ctypes
  `c_size_t` with a numpy integer; the model compares by value.
- Cbf.CBF.GetIntegerArray: a shape is a sequence of naturals, so the
  ValueError that `np.zeros` raises for a negative axis is not modelled.
  `get_binary` only passes the non-negative axes of the shape cascade.
- Cbf.CBF.GetRealArray: likewise, negative axes are not modelled.
- Shape.Product: `np.prod` is exact here; numpy's int64 overflow on huge
  shapes is not modelled.
- Counts of datablocks, categories, columns and rows are below 2^31 (a C
  int). Strings are Python 2 byte strings, modelled as `seq<char>`.
- The `key` of the `*_asdict` methods is None, a str, an int or anything
  else. A Python 2 `long` is not an `int` to `isinstance`, so it belongs
  to the last group (TypeError); `Key.Index` stands for a plain `int`
  only. Other subclass rules (a bool is an int, a unicode is not a str)
  are not modelled. The source raises `TypeError(key)`; the model's
  `TypeError` does not carry the key.
- Cbf.CBF.CategoryAsDict: where an exception raised midway through the
  walk leaves the column and row cursors is not stated. The same holds
  for `CurrentCategoryAsDict`, `DatablockAsDict`, `CurrentDatablockAsDict`,
  `CategoriesOfBlock` and `Datablocks`. Only the successful end positions
  are.
- The loops of `datablocks` and `datablock_asdict` call
  `CurrentDatablockAsDict` and `CurrentCategoryAsDict`, the `key=None`
  path of the Python methods, directly.
- `get`'s docstring says 'null' is returned for a null value. The code
  returns whatever tag libcbf reports, and "" when there is none; the
  model follows the code.
