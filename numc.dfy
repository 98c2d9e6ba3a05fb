/** The numc matrix extension type: the construction forms of `numc.Matrix`,
    their validation and row-major fill, and reading and writing one row with
    `m[i]` and `m[i] = v`. A `Matrix` is a view of `rows * cols` doubles in a
    buffer that slices share with their parent; a `Matrix61c` is the Python
    object holding a matrix and its shape. */
module Numc {

  /** The Python values the constructor and subscripts inspect. */
  datatype PyValue = PyInt(n: int) | PyBool(b: bool) | PyFloat(x: real) | PyList(items: seq<PyValue>) | PyOther

  /** `PyLong_Check`: an `int`, and so also a `bool`. */
  predicate IsLong(v: PyValue) {
    v.PyInt? || v.PyBool?
  }

  /** `PyLong_AsLong` of an int or bool. */
  function AsLong(v: PyValue): int
    requires IsLong(v)
  {
    if v.PyInt? then v.n else if v.b then 1 else 0
  }

  /** `PyFloat_Check(v) || PyLong_Check(v)`. */
  predicate IsNumber(v: PyValue) {
    v.PyFloat? || IsLong(v)
  }

  /** `PyFloat_AsDouble`: the value of a number; anything else gives -1.0 with an
      exception set. */
  function AsDouble(v: PyValue): (d: real)
    ensures !IsNumber(v) ==> d == -1.0
    ensures IsLong(v) ==> d == AsLong(v) as real
    ensures v.PyFloat? ==> d == v.x
  {
    match v
    case PyFloat(x) => x
    case PyInt(n) => n as real
    case PyBool(b) => if b then 1.0 else 0.0
    case _ => -1.0
  }

  function Doubles(vs: seq<PyValue>): (ds: seq<real>)
    ensures |ds| == |vs| && forall k :: 0 <= k < |vs| ==> ds[k] == AsDouble(vs[k])
  {
    seq(|vs|, k requires 0 <= k < |vs| => AsDouble(vs[k]))
  }

  /** A Python exception class raised by the type. */
  datatype ErrorKind = TypeError | IndexError

  /** How a C entry point ends: success, an exception with its message, the
      matrix allocator's failure, a zero return while the `TypeError` of
      `PyFloat_AsDouble` is still pending (the interpreter then raises
      `SystemError` from the constructor call), or undefined behaviour (a NULL
      dereference). */
  datatype Status = Success | Raised(kind: ErrorKind, message: string) | AllocFailed | ErrorPending | Crashed

  /** After converting `vs` with `PyFloat_AsDouble` and returning 0: success, or
      the error a non-number left pending. */
  function FilledStatus(vs: seq<PyValue>): (s: Status)
    ensures s == Success <==> forall k :: 0 <= k < |vs| ==> IsNumber(vs[k])
    ensures s == Success || s == ErrorPending
  {
    if forall k :: 0 <= k < |vs| ==> IsNumber(vs[k]) then Success else ErrorPending
  }

  /** Position (i, j) of a rows-by-cols matrix in row-major order is inside it. */
  lemma RowMajorIndex(i: int, j: int, rows: int, cols: int)
    requires 0 <= i < rows && 0 <= j < cols
    ensures 0 <= i * cols + j < rows * cols
    ensures (i + 1) * cols <= rows * cols
  {
    assert (i + 1) * cols == i * cols + cols;
    assert (i + 1) * cols <= rows * cols by {
      MulMonotone(i + 1, rows, cols);
    }
  }

  /** The row-major position of (i, j). */
  function Cell(i: int, j: int, rows: int, cols: int): (p: nat)
    requires 0 <= i < rows && 0 <= j < cols
    ensures p < rows * cols && p == i * cols + j
  {
    RowMajorIndex(i, j, rows, cols);
    i * cols + j
  }

  /** The row-major position where row i starts. */
  function RowStart(i: int, rows: int, cols: int): (p: nat)
    requires 0 <= i < rows && cols >= 1
    ensures p == i * cols && p + cols <= rows * cols
  {
    RowMajorIndex(i, 0, rows, cols);
    i * cols
  }

  lemma MulMonotone(a: int, b: int, c: nat)
    requires a <= b
    ensures a * c <= b * c
  {
  }

  /** Row `i` of row-major contents. */
  function Row(contents: seq<real>, cols: nat, i: nat): (r: seq<real>)
    requires (i + 1) * cols <= |contents|
    ensures |r| == cols && forall j :: 0 <= j < cols ==> r[j] == contents[i * cols + j]
  {
    contents[i * cols .. (i + 1) * cols]
  }

  /** A `struct matrix`: `rows * cols` doubles of `data`, from `offset` on. */
  class Matrix {
    const rows: int
    const cols: int
    const data: array<real>
    const offset: nat

    ghost predicate Valid() {
      rows >= 1 && cols >= 1 && offset + rows * cols <= data.Length
    }

    /** `allocate_matrix` for positive dimensions: a new zeroed buffer. */
    constructor Allocate(rows: int, cols: int)
      requires rows >= 1 && cols >= 1
      ensures Valid() && this.rows == rows && this.cols == cols && offset == 0
      ensures fresh(data) && data.Length == rows * cols
    {
      MulMonotone(1, rows, cols);
      this.rows, this.cols, this.offset := rows, cols, 0;
      data := new real[rows * cols](_ => 0.0);
    }

    /** `allocate_matrix_ref`: a view of `from` starting `offset` elements into it,
        sharing its buffer. */
    constructor Ref(from: Matrix, offset: nat, rows: int, cols: int)
      requires from.Valid() && rows >= 1 && cols >= 1 && offset + rows * cols <= from.rows * from.cols
      ensures Valid() && data == from.data && this.offset == from.offset + offset
      ensures this.rows == rows && this.cols == cols
    {
      this.rows, this.cols, this.data, this.offset := rows, cols, from.data, from.offset + offset;
    }

    /** The elements of the matrix in row-major order. */
    ghost function Contents(): (c: seq<real>)
      requires Valid()
      reads data
      ensures |c| == rows * cols
    {
      data[offset .. offset + rows * cols]
    }

    /** `get(mat, i, j)`. */
    function Get(i: int, j: int): (v: real)
      requires Valid() && 0 <= i < rows && 0 <= j < cols
      reads data
      ensures v == Contents()[Cell(i, j, rows, cols)]
    {
      data[offset + Cell(i, j, rows, cols)]
    }

    /** `set(mat, i, j, v)`: writes one element of the shared buffer. */
    method Set(i: int, j: int, v: real)
      requires Valid() && 0 <= i < rows && 0 <= j < cols
      modifies data
      ensures data[..] == old(data[..])[offset + Cell(i, j, rows, cols) := v]
    {
      data[offset + Cell(i, j, rows, cols)] := v;
    }

    /** `fill_matrix`: every element becomes `v`. */
    method Fill(v: real)
      requires Valid()
      modifies data
      ensures Contents() == seq(rows * cols, _ => v)
      ensures forall p :: 0 <= p < data.Length && !(offset <= p < offset + rows * cols) ==> data[p] == old(data[p])
    {
      for k := 0 to rows * cols
        invariant forall p :: offset <= p < offset + k ==> data[p] == v
        invariant forall p :: 0 <= p < data.Length && !(offset <= p < offset + rows * cols) ==> data[p] == old(data[p])
      {
        data[offset + k] := v;
      }
    }
  }

  /** What the constructor's arguments select. */
  datatype InitPlan =
    | RandInit(rows: int, cols: int, low: real, high: real)
    | FillInit(rows: int, cols: int, val: real)
    | List1D(rows: int, cols: int, items: seq<PyValue>)
    | List2D(lst: seq<PyValue>)
    | Rejected

  /** A keyword bound: a float or int value, or the default. */
  function Bound(kw: map<string, PyValue>, name: string, default: real): (b: real)
    ensures name !in kw || !IsNumber(kw[name]) ==> b == default
    ensures name in kw && IsNumber(kw[name]) ==> b == AsDouble(kw[name])
  {
    if name in kw && IsNumber(kw[name]) then AsDouble(kw[name]) else default
  }

  /** The dispatch of `Matrix61c_init`. With keywords, `rand` must be exactly
      `True`, `low < high`, and there must be two arguments; two ints make a
      random matrix, anything else falls through to the positional forms. */
  function Dispatch(args: seq<PyValue>, kwds: Option<map<string, PyValue>>): (p: InitPlan)
    ensures kwds.None? ==> p == Positional(args)
    ensures kwds.Some? ==> p.Rejected? || p.RandInit?
    ensures p.RandInit? ==>
      && kwds.Some? && p.low < p.high && |args| == 2 && IsLong(args[0]) && IsLong(args[1])
      && p.rows == AsLong(args[0]) && p.cols == AsLong(args[1])
  {
    match kwds
    case None => Positional(args)
    case Some(kw) =>
      if "rand" !in kw || kw["rand"] != PyBool(true) then Rejected
      else
        var low, high := Bound(kw, "low", 0.0), Bound(kw, "high", 1.0);
        if low >= high || |args| != 2 then Rejected
        else if IsLong(args[0]) && IsLong(args[1]) then RandInit(AsLong(args[0]), AsLong(args[1]), low, high)
        else Positional(args)
  }

  /** The positional forms: `(int, int, int|float)`, `(int, int, list)`,
      `(list)` and `(int, int)`. */
  function Positional(args: seq<PyValue>): (p: InitPlan)
    ensures !p.RandInit?
    ensures !p.Rejected? ==> 1 <= |args| <= 3
    ensures p.FillInit? || p.List1D? ==>
      |args| >= 2 && IsLong(args[0]) && IsLong(args[1]) && p.rows == AsLong(args[0]) && p.cols == AsLong(args[1])
  {
    if !(1 <= |args| <= 3) then Rejected
    else if |args| == 3 && IsLong(args[0]) && IsLong(args[1]) && IsNumber(args[2]) then
      FillInit(AsLong(args[0]), AsLong(args[1]), if IsLong(args[2]) then AsLong(args[2]) as real else args[2].x)
    else if |args| == 3 && IsLong(args[0]) && IsLong(args[1]) && args[2].PyList? then
      List1D(AsLong(args[0]), AsLong(args[1]), args[2].items)
    else if |args| == 1 && args[0].PyList? then List2D(args[0].items)
    else if |args| == 2 && IsLong(args[0]) && IsLong(args[1]) then FillInit(AsLong(args[0]), AsLong(args[1]), 0.0)
    else Rejected
  }

  datatype Option<T> = None | Some(value: T)

  /** The four positional forms select their initialiser, and nothing else is accepted. */
  lemma PositionalForms(args: seq<PyValue>)
    ensures Positional(args).FillInit? <==>
      (|args| == 3 && IsLong(args[0]) && IsLong(args[1]) && IsNumber(args[2]))
      || (|args| == 2 && IsLong(args[0]) && IsLong(args[1]))
    ensures Positional(args).List1D? <==> |args| == 3 && IsLong(args[0]) && IsLong(args[1]) && args[2].PyList?
    ensures Positional(args).List2D? <==> |args| == 1 && args[0].PyList?
    ensures !Positional(args).RandInit?
    ensures |args| == 2 && Positional(args).FillInit? ==> Positional(args).val == 0.0
  {
  }

  /** With keywords the only successful form is the random one; `rand` must be
      `True` and the bounds must be ordered. */
  lemma KeywordForms(args: seq<PyValue>, kw: map<string, PyValue>)
    ensures var p := Dispatch(args, Some(kw)); p.Rejected? || p.RandInit?
    ensures Dispatch(args, Some(kw)).RandInit? ==>
      "rand" in kw && kw["rand"] == PyBool(true) && Dispatch(args, Some(kw)).low < Dispatch(args, Some(kw)).high
    ensures Dispatch(args, Some(kw)).RandInit? <==>
      "rand" in kw && kw["rand"] == PyBool(true) && Bound(kw, "low", 0.0) < Bound(kw, "high", 1.0)
      && |args| == 2 && IsLong(args[0]) && IsLong(args[1])
  {
    if "rand" in kw && kw["rand"] == PyBool(true) && Bound(kw, "low", 0.0) < Bound(kw, "high", 1.0) && |args| == 2 {
      PositionalForms(args);
    }
  }

  /** Without `low` and `high` the bounds are 0 and 1. */
  lemma KeywordDefaults(r: int, c: int)
    ensures Dispatch([PyInt(r), PyInt(c)], Some(map["rand" := PyBool(true)])) == RandInit(r, c, 0.0, 1.0)
  {
  }

  /** `init_2d`'s shape rule: every item is a list as long as the first. */
  predicate Rectangular(lst: seq<PyValue>) {
    |lst| >= 1 && lst[0].PyList? && forall i :: 0 <= i < |lst| ==> lst[i].PyList? && |lst[i].items| == |lst[0].items|
  }

  /** Every item of every row is a number. */
  predicate Numbers2D(lst: seq<PyValue>) {
    forall i, j :: 0 <= i < |lst| && lst[i].PyList? && 0 <= j < |lst[i].items| ==> IsNumber(lst[i].items[j])
  }

  /** The elements of a rectangular list of lists, row by row. */
  function Flatten(lst: seq<PyValue>): (f: seq<PyValue>)
    requires forall i :: 0 <= i < |lst| ==> lst[i].PyList?
  {
    if lst == [] then [] else lst[0].items + Flatten(lst[1..])
  }

  /** Flattening puts item (i, j) at `i * cols + j`. */
  lemma FlattenRowMajor(lst: seq<PyValue>, cols: nat)
    requires forall i :: 0 <= i < |lst| ==> lst[i].PyList? && |lst[i].items| == cols
    ensures |Flatten(lst)| == |lst| * cols
    ensures forall i, j :: 0 <= i < |lst| && 0 <= j < cols ==> Flatten(lst)[Cell(i, j, |lst|, cols)] == lst[i].items[j]
  {
    FlattenLength(lst, cols);
    forall i, j | 0 <= i < |lst| && 0 <= j < cols
      ensures Flatten(lst)[Cell(i, j, |lst|, cols)] == lst[i].items[j]
    {
      FlattenAt(lst, cols, i, j);
    }
  }

  lemma {:induction false} FlattenLength(lst: seq<PyValue>, cols: nat)
    requires forall i :: 0 <= i < |lst| ==> lst[i].PyList? && |lst[i].items| == cols
    ensures |Flatten(lst)| == |lst| * cols
  {
    if lst != [] {
      FlattenLength(lst[1..], cols);
      RowShift(|lst|, cols);
    }
  }

  lemma {:induction false} FlattenAt(lst: seq<PyValue>, cols: nat, i: int, j: int)
    requires forall k :: 0 <= k < |lst| ==> lst[k].PyList? && |lst[k].items| == cols
    requires 0 <= i < |lst| && 0 <= j < cols
    ensures i * cols + j < |Flatten(lst)| && Flatten(lst)[i * cols + j] == lst[i].items[j]
  {
    FlattenLength(lst, cols);
    assert i * cols + j == Cell(i, j, |lst|, cols);
    var rest := lst[1..];
    assert Flatten(lst) == lst[0].items + Flatten(rest);
    if i > 0 {
      FlattenAt(rest, cols, i - 1, j);
      RowShift(i, cols);
      assert rest[i - 1] == lst[i];
    }
  }

  /** Row `i` starts one row's length after row `i - 1`. */
  lemma RowShift(i: int, cols: int)
    ensures i * cols == cols + (i - 1) * cols
  {
  }

  /** The contents an initialiser promises, for the forms whose values are given. */
  ghost function PlannedContents(plan: InitPlan): seq<real>
    requires plan.FillInit? || plan.List1D? || (plan.List2D? && Rectangular(plan.lst))
  {
    match plan
    case FillInit(r, c, v) => if r >= 1 && c >= 1 then seq(r * c, _ => v) else []
    case List1D(_, _, items) => Doubles(items)
    case List2D(lst) => Doubles(Flatten(lst))
  }

  /** The status each construction form ends with: the initialiser's own
      validation, then the allocator, then any error the fill left pending. */
  function PlannedStatus(plan: InitPlan): (s: Status)
    ensures s == Raised(TypeError, "Invalid arguments") <==> plan.Rejected?
    ensures (s == Success || s == ErrorPending) ==>
      plan.RandInit? || plan.FillInit? || plan.List1D? || (plan.List2D? && Rectangular(plan.lst))
  {
    match plan
    case Rejected => Raised(TypeError, "Invalid arguments")
    case RandInit(r, c, _, _) => if r < 1 || c < 1 then AllocFailed else Success
    case FillInit(r, c, _) => if r < 1 || c < 1 then AllocFailed else Success
    case List1D(r, c, items) =>
      if r * c != |items| then Raised(TypeError, "Incorrect number of elements in list")
      else if r < 1 || c < 1 then AllocFailed
      else FilledStatus(items)
    case List2D(lst) =>
      if |lst| == 0 then Raised(TypeError, "Cannot initialize numc.Matrix with an empty list")
      else if !Rectangular(lst) then Raised(TypeError, "List values not valid")
      else if |lst[0].items| == 0 then AllocFailed
      else if Numbers2D(lst) then Success else ErrorPending
  }

  /** The dimensions of the matrix each building form installs: the given
      `rows` and `cols`, or for a list of lists its length and its first
      row's length. Both are at least one, and for the forms whose values are
      given they hold exactly the planned contents. */
  function PlannedShape(plan: InitPlan): (shape: (int, int))
    requires PlannedStatus(plan) == Success || PlannedStatus(plan) == ErrorPending
    ensures shape.0 >= 1 && shape.1 >= 1
    ensures !plan.RandInit? ==> shape.0 * shape.1 == |PlannedContents(plan)|
  {
    match plan
    case RandInit(r, c, _, _) => (r, c)
    case FillInit(r, c, _) => (r, c)
    case List1D(r, c, _) => (r, c)
    case List2D(lst) => FlattenLength(lst, |lst[0].items|); (|lst|, |lst[0].items|)
  }

  /** A pending error comes only from a list form holding a non-number. */
  lemma PendingMeansNonNumber(plan: InitPlan)
    requires PlannedStatus(plan) == ErrorPending
    ensures plan.List1D? || plan.List2D?
    ensures plan.List1D? ==> exists k :: 0 <= k < |plan.items| && !IsNumber(plan.items[k])
    ensures plan.List2D? ==> exists i, j :: 0 <= i < |plan.lst| && plan.lst[i].PyList? && 0 <= j < |plan.lst[i].items|
                                             && !IsNumber(plan.lst[i].items[j])
  {
  }

  /** `Matrix(2, 3)` succeeds; `Matrix(1, 2, [1, "a"])` builds `[1.0, -1.0]`
      with the error pending. */
  lemma InitExamples()
    ensures PlannedStatus(Dispatch([PyInt(2), PyInt(3)], None)) == Success
    ensures PlannedShape(Dispatch([PyInt(2), PyInt(3)], None)) == (2, 3)
    ensures PlannedStatus(Dispatch([PyInt(1), PyInt(2), PyList([PyInt(1), PyOther])], None)) == ErrorPending
    ensures PlannedContents(Dispatch([PyInt(1), PyInt(2), PyList([PyInt(1), PyOther])], None)) == [1.0, -1.0]
    ensures PlannedShape(Dispatch([PyList([PyList([PyInt(1), PyInt(2), PyInt(3)]), PyList([PyInt(4), PyInt(5), PyInt(6)])])], None)) == (2, 3)
  {
    var items := [PyInt(1), PyOther];
    assert !IsNumber(items[1]);
  }

  /** A 2-D list and its flattening with the same shape give the same matrix. */
  lemma TwoDimensionalIsOneDimensional(lst: seq<PyValue>)
    requires Rectangular(lst)
    ensures PlannedContents(List2D(lst)) == PlannedContents(List1D(|lst|, |lst[0].items|, Flatten(lst)))
    ensures |Flatten(lst)| == |lst| * |lst[0].items|
  {
    FlattenRowMajor(lst, |lst[0].items|);
  }

  /** The `numc.Matrix` object. */
  class Matrix61c {
    var mat: Matrix?
    var shape: (int, int)

    ghost predicate Valid()
      reads this
    {
      mat != null ==> mat.Valid() && shape == (mat.rows, mat.cols)
    }

    /** `Matrix61c_new`: an object with no matrix yet. */
    constructor New()
      ensures mat == null && Valid()
    {
      mat := null;
      shape := (0, 0);
    }

    /** `init_fill`: a new rows-by-cols matrix, every element `val`. */
    method InitFill(rows: int, cols: int, val: real) returns (status: Status)
      modifies this
      ensures (rows < 1 || cols < 1) ==> status == AllocFailed && mat == old(mat) && shape == old(shape)
      ensures rows >= 1 && cols >= 1 ==>
        && status == Success && mat != null && fresh(mat) && fresh(mat.data)
        && mat.Valid() && shape == (rows, cols) && mat.rows == rows && mat.cols == cols
        && mat.Contents() == seq(rows * cols, _ => val)
    {
      if rows < 1 || cols < 1 {
        return AllocFailed;
      }
      var m := new Matrix.Allocate(rows, cols);
      m.Fill(val);
      mat, shape := m, (rows, cols);
      status := Success;
    }

    /** `init_rand`: a new rows-by-cols matrix of values drawn from `random`. */
    method InitRand(rows: int, cols: int, low: real, high: real, random: int -> real) returns (status: Status)
      modifies this
      ensures (rows < 1 || cols < 1) ==> status == AllocFailed && mat == old(mat) && shape == old(shape)
      ensures rows >= 1 && cols >= 1 ==>
        && status == Success && mat != null && fresh(mat) && fresh(mat.data)
        && mat.Valid() && shape == (rows, cols) && mat.rows == rows && mat.cols == cols
        && mat.Contents() == seq(rows * cols, k => random(k))
    {
      if rows < 1 || cols < 1 {
        return AllocFailed;
      }
      var m := new Matrix.Allocate(rows, cols);
      for k := 0 to rows * cols
        invariant forall p :: 0 <= p < k ==> m.data[p] == random(p)
      {
        m.data[k] := random(k);
      }
      assert m.Contents() == m.data[..];
      mat, shape := m, (rows, cols);
      status := Success;
    }

    /** `init_1d`: the length is checked before anything is allocated, then
        element (i, j) is item `i * cols + j`; a non-number item becomes -1.0
        and leaves its `TypeError` pending. */
    method Init1D(rows: int, cols: int, lst: seq<PyValue>) returns (status: Status)
      modifies this
      ensures rows * cols != |lst| ==>
        status == Raised(TypeError, "Incorrect number of elements in list") && mat == old(mat) && shape == old(shape)
      ensures rows * cols == |lst| && (rows < 1 || cols < 1) ==> status == AllocFailed && mat == old(mat) && shape == old(shape)
      ensures rows * cols == |lst| && rows >= 1 && cols >= 1 ==>
        && status == FilledStatus(lst) && mat != null && fresh(mat) && fresh(mat.data)
        && mat.Valid() && shape == (rows, cols) && mat.rows == rows && mat.cols == cols
        && mat.Contents() == Doubles(lst)
    {
      if rows * cols != |lst| {
        return Raised(TypeError, "Incorrect number of elements in list");
      }
      if rows < 1 || cols < 1 {
        return AllocFailed;
      }
      var m := new Matrix.Allocate(rows, cols);
      var count := 0;
      var pending := false;
      for i := 0 to rows
        invariant count == i * cols && count <= |lst|
        invariant forall p :: 0 <= p < count ==> m.data[p] == AsDouble(lst[p])
        invariant !pending <==> forall p :: 0 <= p < count ==> IsNumber(lst[p])
      {
        RowMajorIndex(i, 0, rows, cols);
        ghost var rowEnd := count + cols;
        assert rowEnd == (i + 1) * cols;
        for j := 0 to cols
          invariant count == i * cols + j && count + (cols - j) == rowEnd
          invariant forall p :: 0 <= p < count ==> m.data[p] == AsDouble(lst[p])
          invariant !pending <==> forall p :: 0 <= p < count ==> IsNumber(lst[p])
        {
          assert count == Cell(i, j, rows, cols);
          if !IsNumber(lst[count]) {
            pending := true;
          }
          m.Set(i, j, AsDouble(lst[count]));
          count := count + 1;
        }
      }
      assert m.Contents() == m.data[..];
      mat, shape := m, (rows, cols);
      status := if pending then ErrorPending else Success;
    }

    /** `init_2d`: an empty list, a first item that is not a list, and any item
        that is not a list as long as the first are rejected; then element (i, j)
        is `lst[i][j]`, and a non-number item leaves its `TypeError` pending. */
    method Init2D(lst: seq<PyValue>) returns (status: Status)
      modifies this
      ensures |lst| == 0 ==> status == Raised(TypeError, "Cannot initialize numc.Matrix with an empty list")
      ensures |lst| > 0 && !Rectangular(lst) ==> status == Raised(TypeError, "List values not valid")
      ensures Rectangular(lst) && |lst[0].items| == 0 ==> status == AllocFailed
      ensures status != Success && status != ErrorPending ==> mat == old(mat) && shape == old(shape)
      ensures Rectangular(lst) && |lst[0].items| >= 1 ==>
        && status == (if Numbers2D(lst) then Success else ErrorPending) && mat != null && fresh(mat) && fresh(mat.data)
        && mat.Valid() && shape == (|lst|, |lst[0].items|) && mat.rows == |lst| && mat.cols == |lst[0].items|
        && (forall i, j :: 0 <= i < |lst| && 0 <= j < |lst[0].items| ==> mat.Get(i, j) == AsDouble(lst[i].items[j]))
        && mat.Contents() == Doubles(Flatten(lst))
    {
      var rows := |lst|;
      if rows == 0 {
        return Raised(TypeError, "Cannot initialize numc.Matrix with an empty list");
      }
      if !lst[0].PyList? {
        return Raised(TypeError, "List values not valid");
      }
      var cols := |lst[0].items|;
      for i := 0 to rows
        invariant forall k :: 0 <= k < i ==> lst[k].PyList? && |lst[k].items| == cols
      {
        if !lst[i].PyList? || |lst[i].items| != cols {
          return Raised(TypeError, "List values not valid");
        }
      }
      if cols < 1 {
        return AllocFailed;
      }
      var m := new Matrix.Allocate(rows, cols);
      var pending := false;
      for i := 0 to rows
        invariant forall p, q :: 0 <= p < i && 0 <= q < cols ==> m.data[Cell(p, q, rows, cols)] == AsDouble(lst[p].items[q])
        invariant !pending <==> forall p, q :: 0 <= p < i && 0 <= q < cols ==> IsNumber(lst[p].items[q])
      {
        var numbers := FillRow(m, lst[i].items, i);
        if !numbers {
          pending := true;
        }
      }
      mat, shape := m, (rows, cols);
      FlattenRowMajor(lst, cols);
      assert m.Contents() == m.data[..];
      ContentsFromCells(m, Doubles(Flatten(lst)));
      status := if pending then ErrorPending else Success;
    }

    /** `Matrix61c_init`: dispatch, then the selected initialiser. */
    method Init(args: seq<PyValue>, kwds: Option<map<string, PyValue>>, random: int -> real) returns (status: Status)
      modifies this
      ensures status == PlannedStatus(Dispatch(args, kwds))
      ensures status != Success && status != ErrorPending ==> mat == old(mat) && shape == old(shape)
      ensures (status == Success || status == ErrorPending) ==> mat != null && fresh(mat) && mat.Valid() && Valid()
      ensures (status == Success || status == ErrorPending) ==> shape == PlannedShape(Dispatch(args, kwds))
    ensures (status == Success || status == ErrorPending) && !Dispatch(args, kwds).RandInit? ==>
        mat.Contents() == PlannedContents(Dispatch(args, kwds))
    {
      match Dispatch(args, kwds)
      case Rejected =>
        status := Raised(TypeError, "Invalid arguments");
      case RandInit(r, c, low, high) =>
        status := InitRand(r, c, low, high, random);
      case FillInit(r, c, v) =>
        status := InitFill(r, c, v);
      case List1D(r, c, items) =>
        status := Init1D(r, c, items);
      case List2D(lst) =>
        status := Init2D(lst);
    }

    /** `m[key]`: an int key inside `[0, rows)`; a one-column matrix gives the
        scalar, any other gives row `key` as a `cols`-by-1 matrix sharing the
        buffer. */
    method Subscript(key: PyValue) returns (r: ItemResult)
      requires Valid() && mat != null
      ensures !IsLong(key) ==> r == ItemRaised(TypeError, "Key is not valid")
      ensures IsLong(key) && !(0 <= AsLong(key) < mat.rows) ==> r == ItemRaised(IndexError, "Index out of range")
      ensures IsLong(key) && 0 <= AsLong(key) < mat.rows && mat.cols == 1 ==> r == Scalar(mat.Get(AsLong(key), 0))
      ensures IsLong(key) && 0 <= AsLong(key) < mat.rows && mat.cols != 1 ==>
        && r.Slice? && fresh(r.m) && r.m.Valid() && r.m.mat != null
        && r.m.mat.data == mat.data && r.m.shape == (mat.cols, 1)
        && r.m.mat.Contents() == Row(mat.Contents(), mat.cols, AsLong(key))
    {
      if !IsLong(key) {
        return ItemRaised(TypeError, "Key is not valid");
      }
      var index := AsLong(key);
      if index >= mat.rows || index < 0 {
        return ItemRaised(IndexError, "Index out of range");
      }
      if mat.cols == 1 {
        return Scalar(mat.Get(index, 0));
      }
      RowMajorIndex(index, 0, mat.rows, mat.cols);
      var view := new Matrix.Ref(mat, index * mat.cols, mat.cols, 1);
      var rv := new Matrix61c.New();
      rv.mat, rv.shape := view, (view.rows, 1);
      assert view.Contents() == mat.data[mat.offset + index * mat.cols .. mat.offset + index * mat.cols + mat.cols];
      r := Slice(rv);
    }

    /** `m[key] = v`: the same key checks; a one-column matrix takes a number,
        any other a list whose first `cols` items are written left to right,
        stopping at the first non-number with the earlier ones already written. */
    method SetSubscript(key: PyValue, v: PyValue) returns (status: Status)
      requires Valid() && mat != null
      modifies mat.data
      ensures !IsLong(key) ==> status == Raised(TypeError, "Key is not valid") && unchanged(mat.data)
      ensures IsLong(key) && !(0 <= AsLong(key) < mat.rows) ==> status == Raised(IndexError, "Index out of range") && unchanged(mat.data)
      ensures IsLong(key) && 0 <= AsLong(key) < mat.rows && mat.cols == 1 ==>
        if IsNumber(v) then status == Success && mat.data[..] == old(mat.data[..])[mat.offset + AsLong(key) := AsDouble(v)]
        else status == Raised(TypeError, "Value is not valid") && unchanged(mat.data)
      ensures IsLong(key) && 0 <= AsLong(key) < mat.rows && mat.cols != 1 && !v.PyList? ==>
        status == Raised(TypeError, "Value is not valid") && unchanged(mat.data)
      ensures IsLong(key) && 0 <= AsLong(key) < mat.rows && mat.cols != 1 && v.PyList? ==>
        var k := NumericPrefix(v.items, mat.cols);
        && mat.data[..] == WriteRow(old(mat.data[..]), mat.offset + RowStart(AsLong(key), mat.rows, mat.cols), v.items, k)
        && status == SetOutcome(v.items, mat.cols, k)
    {
      if !IsLong(key) {
        return Raised(TypeError, "Key is not valid");
      }
      var index := AsLong(key);
      if index >= mat.rows || index < 0 {
        return Raised(IndexError, "Index out of range");
      }
      var cols := mat.cols;
      if cols == 1 {
        if !IsNumber(v) {
          return Raised(TypeError, "Value is not valid");
        }
        mat.Set(index, 0, AsDouble(v));
        return Success;
      }
      if !v.PyList? {
        return Raised(TypeError, "Value is not valid");
      }
      status := SetRow(index, v.items);
    }

    /** The list branch of `m[key] = v`: the items are written into row `index`
        left to right until `cols` are written or an item is not a number; a
        list shorter than the row is read past its end. */
    method SetRow(index: nat, items: seq<PyValue>) returns (status: Status)
      requires Valid() && mat != null && index < mat.rows
      modifies mat.data
      ensures var k := NumericPrefix(items, mat.cols);
        && mat.data[..] == WriteRow(old(mat.data[..]), mat.offset + RowStart(index, mat.rows, mat.cols), items, k)
        && status == SetOutcome(items, mat.cols, k)
    {
      var cols := mat.cols;
      ghost var start := mat.offset + RowStart(index, mat.rows, cols);
      for i := 0 to cols
        invariant i <= NumericPrefix(items, cols)
        invariant mat.data[..] == WriteRow(old(mat.data[..]), start, items, i)
      {
        if i >= |items| {
          // PyList_GetItem returns NULL past the end and PyFloat_Check dereferences it
          NumericPrefixStops(items, cols, i);
          return Crashed;
        }
        if !IsNumber(items[i]) {
          NumericPrefixStops(items, cols, i);
          return Raised(TypeError, "Value is not valid");
        }
        NumericPrefixGrows(items, cols, i);
        mat.Set(index, i, AsDouble(items[i]));
        WriteRowSnoc(old(mat.data[..]), start, items, i);
      }
      status := Success;
    }
  }

  /** What `m[key]` gives. */
  datatype ItemResult = Scalar(value: real) | Slice(m: Matrix61c) | ItemRaised(kind: ErrorKind, message: string)

  /** The number of leading items, up to `cols`, that are numbers. */
  function NumericPrefix(items: seq<PyValue>, cols: nat): (k: nat)
    ensures k <= cols && k <= |items|
    ensures forall j :: 0 <= j < k ==> IsNumber(items[j])
    ensures k < cols && k < |items| ==> !IsNumber(items[k])
  {
    if cols == 0 || items == [] || !IsNumber(items[0]) then 0
    else 1 + NumericPrefix(items[1..], cols - 1)
  }

  lemma NumericPrefixStops(items: seq<PyValue>, cols: nat, i: nat)
    requires i <= NumericPrefix(items, cols) && i < cols
    requires i >= |items| || !IsNumber(items[i])
    ensures NumericPrefix(items, cols) == i
  {
  }

  lemma NumericPrefixGrows(items: seq<PyValue>, cols: nat, i: nat)
    requires i <= NumericPrefix(items, cols) && i < cols && i < |items| && IsNumber(items[i])
    ensures i + 1 <= NumericPrefix(items, cols)
  {
  }

  /** How the row write ends once `k` items were written. */
  function SetOutcome(items: seq<PyValue>, cols: nat, k: nat): Status {
    if k == cols then Success
    else if k < |items| then Raised(TypeError, "Value is not valid")
    else Crashed
  }

  /** The buffer after the first `k` items were written from `start` on. */
  function WriteRow(a: seq<real>, start: nat, items: seq<PyValue>, k: nat): (b: seq<real>)
    requires k <= |items| && start + k <= |a|
    ensures |b| == |a|
    ensures forall p :: 0 <= p < |a| && !(start <= p < start + k) ==> b[p] == a[p]
    ensures forall j :: 0 <= j < k ==> b[start + j] == AsDouble(items[j])
  {
    if k == 0 then a else WriteRow(a, start, items, k - 1)[start + k - 1 := AsDouble(items[k - 1])]
  }

  lemma WriteRowSnoc(a: seq<real>, start: nat, items: seq<PyValue>, k: nat)
    requires k < |items| && start + k < |a|
    ensures WriteRow(a, start, items, k + 1) == WriteRow(a, start, items, k)[start + k := AsDouble(items[k])]
  {
  }

  /** A successful row write replaces exactly that row with the written values. */
  lemma SetRowReplacesRow(a: seq<real>, start: nat, items: seq<PyValue>, cols: nat)
    requires cols <= |items| && start + cols <= |a| && NumericPrefix(items, cols) == cols
    ensures WriteRow(a, start, items, cols)[start .. start + cols] == Doubles(items[..cols])
    ensures WriteRow(a, start, items, cols)[..start] == a[..start]
    ensures WriteRow(a, start, items, cols)[start + cols..] == a[start + cols..]
  {
  }

  /** The write is not atomic: a list whose second item is not a number still
      writes the first. */
  lemma SetSubscriptNotAtomic(a: seq<real>, start: nat, x: real, cols: nat)
    requires cols >= 2 && start + 1 <= |a|
    ensures NumericPrefix([PyFloat(x), PyOther], cols) == 1
    ensures SetOutcome([PyFloat(x), PyOther], cols, 1) == Raised(TypeError, "Value is not valid")
    ensures WriteRow(a, start, [PyFloat(x), PyOther], 1)[start] == x
  {
    assert [PyFloat(x), PyOther][1..] == [PyOther];
  }

  /** The inner loop of `init_2d`: the items of `row` into row `i` of `m`, each
      converted by `PyFloat_AsDouble`; says whether every item is a number. */
  method FillRow(m: Matrix, row: seq<PyValue>, i: int) returns (numbers: bool)
    requires m.Valid() && m.offset == 0 && 0 <= i < m.rows && |row| == m.cols
    modifies m.data
    ensures numbers <==> forall q :: 0 <= q < |row| ==> IsNumber(row[q])
    ensures forall q :: 0 <= q < m.cols ==> m.data[Cell(i, q, m.rows, m.cols)] == AsDouble(row[q])
    ensures forall p, q :: 0 <= p < m.rows && p != i && 0 <= q < m.cols ==>
      m.data[Cell(p, q, m.rows, m.cols)] == old(m.data[Cell(p, q, m.rows, m.cols)])
  {
    numbers := true;
    for j := 0 to m.cols
      invariant forall q :: 0 <= q < j ==> m.data[Cell(i, q, m.rows, m.cols)] == AsDouble(row[q])
      invariant forall p, q :: 0 <= p < m.rows && p != i && 0 <= q < m.cols ==>
        m.data[Cell(p, q, m.rows, m.cols)] == old(m.data[Cell(p, q, m.rows, m.cols)])
      invariant numbers <==> forall q :: 0 <= q < j ==> IsNumber(row[q])
    {
      if !IsNumber(row[j]) {
        numbers := false;
      }
      ghost var before := m.data[..];
      m.Set(i, j, AsDouble(row[j]));
      forall p, q | 0 <= p < m.rows && 0 <= q < m.cols && (p, q) != (i, j)
        ensures m.data[Cell(p, q, m.rows, m.cols)] == before[Cell(p, q, m.rows, m.cols)]
      {
        DistinctCells(p, q, i, j, m.cols);
      }
    }
  }

  lemma DistinctCells(p: int, q: int, i: int, j: int, cols: int)
    requires 0 <= q < cols && 0 <= j < cols && (p, q) != (i, j)
    ensures p * cols + q != i * cols + j
  {
    if p == i {
    } else if p < i {
      MulMonotone(p + 1, i, cols);
      assert (p + 1) * cols == p * cols + cols;
    } else {
      MulMonotone(i + 1, p, cols);
      assert (i + 1) * cols == i * cols + cols;
    }
  }

  /** Contents agreeing with `f` at every cell are `f`. */
  lemma ContentsFromCells(m: Matrix, f: seq<real>)
    requires m.Valid() && |f| == m.rows * m.cols
    requires forall i, j :: 0 <= i < m.rows && 0 <= j < m.cols ==> m.Contents()[Cell(i, j, m.rows, m.cols)] == f[Cell(i, j, m.rows, m.cols)]
    ensures m.Contents() == f
  {
    forall p | 0 <= p < |f|
      ensures m.Contents()[p] == f[p]
    {
      var i, j := CellOf(p, m.rows, m.cols);
      assert Cell(i, j, m.rows, m.cols) == p;
    }
  }

  /** The row and column of the `p`-th element in row-major order. */
  lemma CellOf(p: int, rows: int, cols: int) returns (i: int, j: int)
    requires cols >= 1 && 0 <= p < rows * cols
    ensures 0 <= i < rows && 0 <= j < cols && p == i * cols + j
  {
    i, j := p / cols, p % cols;
    if i >= rows {
      MulMonotone(rows, i, cols);
    }
  }
}
