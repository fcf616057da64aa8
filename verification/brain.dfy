/**
  * The flat view of a network's weights in src/snake/brainDNN.py: all
  * trainable variables, in order, seen as one long vector. The brain map
  * pairs each running total of the variables' element counts with the
  * variable that total ends in; an index is resolved to a variable by the
  * first total above it, and then to an element of that variable (a
  * position in a vector of biases, or a row and a column in a matrix of
  * weights).
  *
  * Variables are abstract shaped arrays: a shape and the elements in
  * row-major order, read and written the way numpy indexing does.
  */
module Brain {
  import opened Wrappers

  /** A trainable variable's value: its shape and its elements in row-major order. */
  datatype Tensor = Tensor(shape: seq<nat>, data: seq<real>)

  /** np.prod(shape): the number of elements (1 for the empty shape). */
  function Size(shape: seq<nat>): nat {
    if shape == [] then 1 else shape[0] * Size(shape[1..])
  }

  predicate WellShaped(t: Tensor) {
    |t.data| == Size(t.shape)
  }

  /** The index argument: an int, a bool (an int to isinstance), or anything else. */
  datatype Index = IntIndex(n: int) | BoolIndex(b: bool) | OtherIndex

  datatype BrainError = TypeError | IndexError | NotImplementedError | ValueError | OverflowError

  /**
    * Where an index leads: a position in a 1-D variable, or a row and
    * column in a 2-D one. floating: the position (the column, in a matrix)
    * is a numpy float, which numpy refuses as a subscript.
    */
  datatype Location = Flat(v: nat, k: int, floating: bool) | Cell(v: nat, i: int, j: int, floating: bool)

  // ---------------------------------------------------------------------
  // The brain map
  // ---------------------------------------------------------------------

  /** The brain map as a dict: (key, variable) pairs in insertion order. */
  type BrainMap = seq<(int, nat)>

  /** d[k] = v on a dict: an existing key keeps its place and takes the new value, a new one goes last. */
  function Put(m: BrainMap, k: int, v: nat): (r: BrainMap)
    ensures |m| <= |r| <= |m| + 1
  {
    if m == [] then [(k, v)]
    else if m[0].0 == k then [(k, v)] + m[1..]
    else [m[0]] + Put(m[1..], k, v)
  }

  /** A key not yet in the dict is added at the end. */
  lemma {:induction false} PutFresh(m: BrainMap, k: int, v: nat)
    requires forall i :: 0 <= i < |m| ==> m[i].0 != k
    ensures Put(m, k, v) == m + [(k, v)]
  {
    if m != [] {
      PutFresh(m[1..], k, v);
    }
  }

  /** A key already in the dict keeps its place and only its variable changes. */
  lemma {:induction false} PutExisting(m: BrainMap, k: int, v: nat, i: nat)
    requires i < |m| && m[i].0 == k
    requires forall q :: 0 <= q < i ==> m[q].0 != k
    ensures Put(m, k, v) == m[i := (k, v)]
  {
    if i > 0 {
      PutExisting(m[1..], k, v, i - 1);
    }
  }

  /** Every entry after d[k] = v is an entry from before, in its old place, or the new pair, which is among them. */
  lemma {:induction false} PutEntries(m: BrainMap, k: int, v: nat)
    ensures forall i :: 0 <= i < |Put(m, k, v)| ==> (i < |m| && Put(m, k, v)[i] == m[i]) || Put(m, k, v)[i] == (k, v)
    ensures (k, v) in Put(m, k, v)
  {
    if m != [] && m[0].0 != k {
      PutEntries(m[1..], k, v);
      var r := Put(m, k, v);
      forall i | 0 <= i < |r| ensures (i < |m| && r[i] == m[i]) || r[i] == (k, v) {
        if i > 0 {
          assert r[i] == Put(m[1..], k, v)[i - 1];
        }
      }
      assert (k, v) in Put(m[1..], k, v);
    }
  }

  /** The shapes of the variables, in order. */
  function Shapes(vars: seq<Tensor>): (r: seq<seq<nat>>)
    ensures |r| == |vars| && forall i :: 0 <= i < |vars| ==> r[i] == vars[i].shape
  {
    seq(|vars|, i requires 0 <= i < |vars| => vars[i].shape)
  }

  /** The element counts of variables of the given shapes, in order. */
  function Sizes(shapes: seq<seq<nat>>): (s: seq<nat>)
    ensures |s| == |shapes| && forall i :: 0 <= i < |shapes| ==> s[i] == Size(shapes[i])
  {
    seq(|shapes|, i requires 0 <= i < |shapes| => Size(shapes[i]))
  }

  /** The sum of a sequence of counts. */
  function Total(s: seq<nat>): nat {
    if s == [] then 0 else Total(s[..|s| - 1]) + s[|s| - 1]
  }

  /** The map the brainMap property builds: each running total keyed to the variable it ends in. */
  function MapOf(s: seq<nat>): BrainMap {
    if s == [] then [] else Put(MapOf(s[..|s| - 1]), Total(s), |s| - 1)
  }

  /** Running totals never go down. */
  lemma {:induction false} TotalMonotone(s: seq<nat>, i: nat, j: nat)
    requires i <= j <= |s|
    ensures Total(s[..i]) <= Total(s[..j])
    decreases j - i
  {
    if i < j {
      TotalMonotone(s, i, j - 1);
      assert s[..j][..j - 1] == s[..j - 1];
    }
  }

  /** An entry of the map built from counts s: the running total up to and including the variable it names. */
  predicate EntryOk(s: seq<nat>, e: (int, nat)) {
    e.1 < |s| && e.0 == Total(s[..e.1 + 1]) && e.0 <= Total(s)
  }

  /**
    * Every key is the running total up to the variable it names (so every
    * variable named exists and no key exceeds the grand total), and the
    * grand total is keyed to the last variable.
    */
  lemma {:induction false} MapOfKeys(s: seq<nat>)
    ensures forall i :: 0 <= i < |MapOf(s)| ==> EntryOk(s, MapOf(s)[i])
    ensures s != [] ==> (Total(s), |s| - 1) in MapOf(s)
  {
    if s != [] {
      var init := s[..|s| - 1];
      MapOfKeys(init);
      var m := MapOf(init);
      var r := MapOf(s);
      assert s[..|s|] == s;
      PutEntries(m, Total(s), |s| - 1);
      forall i | 0 <= i < |r| ensures EntryOk(s, r[i]) {
        if r[i] != (Total(s), |s| - 1) {
          assert EntryOk(init, m[i]);
          assert init[..m[i].1 + 1] == s[..m[i].1 + 1];
        }
      }
    }
  }

  /**
    * When no variable is empty the totals strictly grow, so no key is
    * overwritten: entry i is the total up to and including variable i.
    */
  lemma {:induction false} MapOfPositive(s: seq<nat>)
    requires forall k :: 0 <= k < |s| ==> s[k] > 0
    ensures |MapOf(s)| == |s|
    ensures forall i :: 0 <= i < |s| ==> MapOf(s)[i].0 == Total(s[..i + 1]) && MapOf(s)[i].1 == i
  {
    if s != [] {
      var init := s[..|s| - 1];
      MapOfPositive(init);
      var m := MapOf(init);
      assert s[..|s|] == s;
      assert Total(s) == Total(init) + s[|s| - 1];
      forall i | 0 <= i < |m| ensures m[i].0 < Total(s) {
        assert init[..i + 1] == s[..i + 1];
        TotalMonotone(init, i + 1, |init|);
        assert init[..|init|] == init;
      }
      PutFresh(m, Total(s), |s| - 1);
      forall i | 0 <= i < |init| ensures MapOf(s)[i].0 == Total(s[..i + 1]) {
        assert init[..i + 1] == s[..i + 1];
      }
    }
  }

  /** __len__: the largest key, and ValueError from max() on an empty map. */
  function Len(m: BrainMap): (r: Result<int, BrainError>)
    ensures r.Err? <==> m == []
    ensures r.Ok? ==> (exists i :: 0 <= i < |m| && m[i].0 == r.value) && forall i :: 0 <= i < |m| ==> m[i].0 <= r.value
  {
    if m == [] then Err(ValueError)
    else if |m| == 1 then Ok(m[0].0)
    else
      var rest := Len(m[1..]);
      Ok(if m[0].0 >= rest.value then m[0].0 else rest.value)
  }

  /** A key at least as large as every other one is the length. */
  lemma LenIsMaxKey(m: BrainMap, j: nat)
    requires j < |m| && forall q :: 0 <= q < |m| ==> m[q].0 <= m[j].0
    ensures Len(m) == Ok(m[j].0)
  {
  }

  /** The largest key of the brain map is the number of elements of all variables together. */
  lemma LenIsTotal(shapes: seq<seq<nat>>)
    requires shapes != []
    ensures Len(MapOf(Sizes(shapes))) == Ok(Total(Sizes(shapes)))
  {
    var s := Sizes(shapes);
    var m := MapOf(s);
    MapOfKeys(s);
    var j :| 0 <= j < |m| && m[j] == (Total(s), |s| - 1);
    forall q | 0 <= q < |m| ensures m[q].0 <= m[j].0 {
      assert EntryOk(s, m[q]);
    }
    LenIsMaxKey(m, j);
  }

  // ---------------------------------------------------------------------
  // Resolving an index
  // ---------------------------------------------------------------------

  /**
    * The position of the first 0-d variable, if any. np.prod(()) is the
    * float 1.0, so from that variable on every running total, and with it
    * every key of the brain map, is a numpy float.
    */
  function FirstScalar(shapes: seq<seq<nat>>): (r: Option<nat>)
    ensures r.Some? ==> r.value < |shapes| && shapes[r.value] == []
    ensures r.Some? ==> forall k :: 0 <= k < r.value ==> shapes[k] != []
    ensures r.None? ==> forall k :: 0 <= k < |shapes| ==> shapes[k] != []
  {
    if shapes == [] then None
    else if shapes[0] == [] then Some(0)
    else match FirstScalar(shapes[1..])
      case None => None
      case Some(z) => Some(z + 1)
  }

  /**
    * Whether the key of variable v is a float: some variable up to v is
    * 0-d. A key shared with earlier empty variables keeps the object first
    * stored, which is a float exactly when this holds for them too.
    */
  predicate FloatKey(shapes: seq<seq<nat>>, v: nat) {
    FirstScalar(shapes).Some? && FirstScalar(shapes).value <= v
  }

  /**
    * __len__ of a network with variables of the given shapes: max() of the
    * keys, ValueError on an empty map, and TypeError when that maximum is a
    * numpy float, which Python does not accept as a length.
    */
  function FlatLen(shapes: seq<seq<nat>>): (r: Result<int, BrainError>)
    ensures r.Ok? ==> FirstScalar(shapes).None?
  {
    match Len(MapOf(Sizes(shapes)))
    case Err(e) => Err(e)
    case Ok(k) => if FirstScalar(shapes).Some? then Err(TypeError) else Ok(k)
  }

  /**
    * The length of the flat view is the number of elements of all
    * variables together; with no variable it is ValueError, and after a 0-d
    * variable TypeError.
    */
  lemma FlatLenIsTotal(shapes: seq<seq<nat>>)
    ensures FlatLen(shapes) ==
      if shapes == [] then Err(ValueError)
      else if FirstScalar(shapes).Some? then Err(TypeError)
      else Ok(Total(Sizes(shapes)))
  {
    if shapes == [] {
      assert Sizes(shapes) == [];
    } else {
      LenIsTotal(shapes);
    }
  }

  /** The position of the first key above index, as the loop with break finds it. */
  function FirstAbove(m: BrainMap, index: int): (r: Option<nat>)
    ensures r.Some? ==> r.value < |m| && index < m[r.value].0
    ensures r.Some? ==> forall q :: 0 <= q < r.value ==> m[q].0 <= index
    ensures r.None? ==> forall q :: 0 <= q < |m| ==> m[q].0 <= index
  {
    if m == [] then None
    else if index < m[0].0 then Some(0)
    else match FirstAbove(m[1..], index)
      case None => None
      case Some(p) => Some(p + 1)
  }

  /** The first key above index is at p when every key before p is at most index and the key at p is above it. */
  lemma FirstAboveAt(m: BrainMap, index: int, p: nat)
    requires p < |m| && index < m[p].0
    requires forall q :: 0 <= q < p ==> m[q].0 <= index
    ensures FirstAbove(m, index) == Some(p)
  {
  }

  /** The integer value of an index that isinstance accepts as an int. */
  function IndexValue(index: Index): int
    requires !index.OtherIndex?
  {
    match index
    case IntIndex(n) => n
    case BoolIndex(b) => if b then 1 else 0
  }

  /** np.prod of a one- and a two-dimensional shape. */
  lemma ShapeSizes(shape: seq<nat>)
    ensures |shape| == 1 ==> Size(shape) == shape[0]
    ensures |shape| == 2 ==> Size(shape) == shape[0] * shape[1]
  {
    if |shape| == 1 {
      assert shape[1..] == [];
    } else if |shape| == 2 {
      assert shape[1..][1..] == [];
    }
  }

  /**
    * The second half of _readBrainMap: the position local inside variable
    * v of the given shape, kept as it is for a vector, split into row i and
    * column j of a matrix by the floor quotient and the floor modulo of the
    * column count, and NotImplementedError for any other number of
    * dimensions. floating says whether the position is a numpy float.
    * With no columns, an integer position gives modulo 0 and a float
    * infinity (nan for 0) from the division, which int() refuses with
    * OverflowError (ValueError); a float position gives nan and ValueError.
    */
  function Within(v: nat, shape: seq<nat>, local: int, floating: bool): (r: Result<Location, BrainError>)
    ensures r.Ok? ==> r.value.v == v && r.value.floating == floating
    ensures r.Ok? && r.value.Flat? ==> |shape| == 1
    ensures r.Ok? && r.value.Cell? ==> |shape| == 2
    ensures r.Err? ==> r.error == NotImplementedError || (|shape| == 2 && shape[1] == 0)
  {
    if |shape| == 1 then Ok(Flat(v, local, floating))
    else if |shape| == 2 then
      var cols := shape[1];
      if cols == 0 then Err(if local == 0 || floating then ValueError else OverflowError)
      else Ok(Cell(v, local / cols, local % cols, floating))
    else Err(NotImplementedError)
  }

  /**
    * A position inside a variable of one or two dimensions is found
    * without error; in a matrix, row i and column j lie inside it and give
    * back the position in row-major order.
    */
  lemma WithinBounds(v: nat, shape: seq<nat>, local: int, floating: bool)
    requires 0 <= local < Size(shape)
    ensures var r := Within(v, shape, local, floating);
      && (|shape| == 1 ==> r == Ok(Flat(v, local, floating)))
      && (|shape| == 2 ==>
            r.Ok? && r.value == Cell(v, r.value.i, r.value.j, floating)
            && r.value.i * shape[1] + r.value.j == local
            && 0 <= r.value.i < shape[0] && 0 <= r.value.j < shape[1])
      && (|shape| != 1 && |shape| != 2 ==> r == Err(NotImplementedError))
  {
    ShapeSizes(shape);
    if |shape| == 2 {
      RowInRange(local, shape[0], shape[1]);
    }
  }

  /**
    * _readBrainMap on variables of the given shapes: TypeError for a
    * non-int; IndexError exactly when no key is above the index; otherwise
    * the index within the variable found (index - key + size), resolved
    * by Within, and a float when the key or the size is one.
    */
  function Locate(shapes: seq<seq<nat>>, m: BrainMap, index: Index): (r: Result<Location, BrainError>)
    requires forall i :: 0 <= i < |m| ==> m[i].1 < |shapes|
    ensures r.Ok? ==> r.value.v < |shapes|
    ensures index.OtherIndex? <==> r == Err(TypeError)
    ensures r == Err(IndexError) <==> !index.OtherIndex? && forall q :: 0 <= q < |m| ==> m[q].0 <= IndexValue(index)
    ensures r.Ok? && r.value.Flat? ==> |shapes[r.value.v]| == 1
    ensures r.Ok? && r.value.Cell? ==> |shapes[r.value.v]| == 2
    ensures r.Ok? ==> r.value.floating == FloatKey(shapes, r.value.v)
  {
    if index.OtherIndex? then Err(TypeError)
    else
      var n := IndexValue(index);
      match FirstAbove(m, n)
      case None => Err(IndexError)
      case Some(p) =>
        var v := m[p].1;
        Within(v, shapes[v], n - m[p].0 + Size(shapes[v]), FloatKey(shapes, v))
  }

  /** Locate once the first key above the index, the variable it names and the position in it are known. */
  lemma LocateAt(shapes: seq<seq<nat>>, m: BrainMap, index: Index, p: nat, v: nat, shape: seq<nat>, local: int)
    requires forall i :: 0 <= i < |m| ==> m[i].1 < |shapes|
    requires !index.OtherIndex? && FirstAbove(m, IndexValue(index)) == Some(p)
    requires v == m[p].1 && shape == shapes[v] && local == IndexValue(index) - m[p].0 + Size(shape)
    ensures Locate(shapes, m, index) == Within(v, shape, local, FloatKey(shapes, v))
  {
  }

  /** LocateIn once the first key above the index, the variable it names and the position in it are known. */
  lemma LocateInAt(shapes: seq<seq<nat>>, index: Index, p: nat, v: nat, shape: seq<nat>, local: int)
    requires !index.OtherIndex? && FirstAbove(MapOf(Sizes(shapes)), IndexValue(index)) == Some(p)
    requires v == MapOf(Sizes(shapes))[p].1 && v < |shapes| && shape == shapes[v]
    requires local == IndexValue(index) - MapOf(Sizes(shapes))[p].0 + Size(shape)
    ensures LocateIn(shapes, index) == Within(v, shape, local, FloatKey(shapes, v))
  {
    MapOfKeys(Sizes(shapes));
    LocateAt(shapes, MapOf(Sizes(shapes)), index, p, v, shape, local);
  }

  /** The location an index resolves to in the brain map of variables of the given shapes. */
  function LocateIn(shapes: seq<seq<nat>>, index: Index): (r: Result<Location, BrainError>)
    ensures r.Ok? ==> r.value.v < |shapes|
    ensures r.Ok? && r.value.Flat? ==> |shapes[r.value.v]| == 1
    ensures r.Ok? && r.value.Cell? ==> |shapes[r.value.v]| == 2
    ensures r.Ok? ==> r.value.floating == FloatKey(shapes, r.value.v)
  {
    MapOfKeys(Sizes(shapes));
    Locate(shapes, MapOf(Sizes(shapes)), index)
  }

  /**
    * An int index meets IndexError exactly when it is at or above the
    * number of elements of all variables together (with no variable at
    * all, always).
    */
  lemma IndexErrorExactly(shapes: seq<seq<nat>>, index: Index)
    requires !index.OtherIndex?
    ensures LocateIn(shapes, index) == Err(IndexError) <==> shapes == [] || IndexValue(index) >= Total(Sizes(shapes))
  {
    var s := Sizes(shapes);
    MapOfKeys(s);
    var m := MapOf(s);
    if shapes != [] {
      var q :| 0 <= q < |m| && m[q] == (Total(s), |s| - 1);
      forall i | 0 <= i < |m| ensures m[i].0 <= Total(s) {
        assert EntryOk(s, m[i]);
      }
    }
  }

  /** Every index inside the flat view falls between the running totals before and after some variable. */
  lemma {:induction false} SomeVariableHolds(s: seq<nat>, n: int)
    requires 0 <= n < Total(s)
    ensures exists p :: 0 <= p < |s| && Total(s[..p]) <= n < Total(s[..p + 1])
  {
    var init := s[..|s| - 1];
    assert s[..|s|] == s;
    if n < Total(init) {
      SomeVariableHolds(init, n);
      var p :| 0 <= p < |init| && Total(init[..p]) <= n < Total(init[..p + 1]);
      assert init[..p] == s[..p] && init[..p + 1] == s[..p + 1];
    } else {
      assert Total(s[..|s| - 1]) <= n < Total(s[..|s|]);
    }
  }

  /**
    * With no empty variable, an index between the running totals before
    * and after variable p first falls below the key of variable p.
    */
  lemma FirstAboveIsVariable(s: seq<nat>, n: int, p: nat)
    requires forall k :: 0 <= k < |s| ==> s[k] > 0
    requires p < |s| && Total(s[..p]) <= n < Total(s[..p + 1])
    ensures FirstAbove(MapOf(s), n) == Some(p)
    ensures p < |MapOf(s)| && MapOf(s)[p].0 == Total(s[..p]) + s[p] && MapOf(s)[p].1 == p
    ensures 0 <= n - Total(s[..p]) < s[p]
    ensures forall i :: 0 <= i < |MapOf(s)| ==> MapOf(s)[i].1 < |s|
  {
    MapOfPositive(s);
    var m := MapOf(s);
    assert s[..p + 1][..p] == s[..p];
    forall q | 0 <= q < p ensures m[q].0 <= n {
      assert m[q].0 == Total(s[..q + 1]);
      TotalMonotone(s, q + 1, p);
    }
    assert m[p].0 == Total(s[..p + 1]) == Total(s[..p]) + s[p];
    FirstAboveAt(m, n, p);
  }

  /**
    * An index between the running totals before and after variable p,
    * with no empty variable, lands in variable p at the position index
    * minus the total before p, which lies inside that variable.
    */
  lemma LocateInVariable(shapes: seq<seq<nat>>, n: int, p: nat)
    requires forall k :: 0 <= k < |shapes| ==> Size(shapes[k]) > 0
    requires p < |shapes| && Total(Sizes(shapes)[..p]) <= n < Total(Sizes(shapes)[..p + 1])
    ensures 0 <= n - Total(Sizes(shapes)[..p]) < Size(shapes[p])
    ensures LocateIn(shapes, IntIndex(n)) == Within(p, shapes[p], n - Total(Sizes(shapes)[..p]), FloatKey(shapes, p))
  {
    FirstAboveIsVariable(Sizes(shapes), n, p);
    LocateInAt(shapes, IntIndex(n), p, p, shapes[p], n - Total(Sizes(shapes)[..p]));
  }

  /** The row of a position inside a rows x cols matrix is below rows. */
  lemma RowInRange(local: int, rows: nat, cols: nat)
    requires cols > 0 && 0 <= local < rows * cols
    ensures 0 <= local / cols < rows
  {
  }

  // ---------------------------------------------------------------------
  // Element access, numpy style
  // ---------------------------------------------------------------------

  /** numpy's treatment of one subscript of an axis of length n: negative counts from the end. */
  function Axis(k: int, n: nat): (r: Option<nat>)
    ensures r.Some? <==> -(n as int) <= k < n
    ensures r.Some? ==> r.value < n && (r.value == k || r.value == k + n)
  {
    if 0 <= k < n then Some(k) else if -(n as int) <= k < 0 then Some(k + n) else None
  }

  /**
    * The position in the row-major data of a variable of the given shape
    * that a location names, or IndexError: a subscript out of range, or a
    * float subscript.
    */
  function Offset(shape: seq<nat>, loc: Location): (r: Result<nat, BrainError>)
    requires loc.Flat? ==> |shape| == 1
    requires loc.Cell? ==> |shape| == 2
    ensures r.Ok? ==> r.value < Size(shape) && !loc.floating
  {
    ShapeSizes(shape);
    if loc.floating then Err(IndexError)
    else match loc
    case Flat(_, k, _) =>
      (match Axis(k, shape[0])
       case None => Err(IndexError)
       case Some(x) => Ok(x))
    case Cell(_, i, j, _) =>
      match (Axis(i, shape[0]), Axis(j, shape[1]))
      case (Some(x), Some(y)) =>
        OffsetInRange(x, y, shape[0], shape[1]);
        Ok(x * shape[1] + y)
      case _ => Err(IndexError)
  }

  lemma OffsetInRange(x: nat, y: nat, rows: nat, cols: nat)
    requires x < rows && y < cols
    ensures x * cols + y < rows * cols
  {
    assert x * cols <= (rows - 1) * cols;
  }

  predicate AllWellShaped(vars: seq<Tensor>) {
    forall i :: 0 <= i < |vars| ==> WellShaped(vars[i])
  }

  /** The variable and the position in its data that an index names, or the error met on the way. */
  function Target(shapes: seq<seq<nat>>, index: Index): (r: Result<(nat, nat), BrainError>)
    ensures r.Ok? ==> r.value.0 < |shapes| && r.value.1 < Size(shapes[r.value.0])
  {
    match LocateIn(shapes, index)
    case Err(e) => Err(e)
    case Ok(loc) =>
      match Offset(shapes[loc.v], loc)
      case Err(e) => Err(e)
      case Ok(x) => Ok((loc.v, x))
  }

  /** __getitem__ as a value: the element the index names. */
  function Item(vars: seq<Tensor>, index: Index): (r: Result<real, BrainError>)
    requires AllWellShaped(vars)
    ensures r.Ok? <==> Target(Shapes(vars), index).Ok?
  {
    match Target(Shapes(vars), index)
    case Err(e) => Err(e)
    case Ok((v, x)) => Ok(vars[v].data[x])
  }

  /** __setitem__ as a value: the variables with value written at the element the index names. */
  function Written(vars: seq<Tensor>, index: Index, value: real): (r: Result<seq<Tensor>, BrainError>)
    requires AllWellShaped(vars)
    ensures r.Ok? <==> Target(Shapes(vars), index).Ok?
    ensures r.Ok? ==> |r.value| == |vars| && AllWellShaped(r.value)
    ensures r.Ok? ==> forall i :: 0 <= i < |vars| ==> r.value[i].shape == vars[i].shape
  {
    match Target(Shapes(vars), index)
    case Err(e) => Err(e)
    case Ok((v, x)) => Ok(vars[v := vars[v].(data := vars[v].data[x := value])])
  }

  /** Reading back a written index gives the value written. */
  lemma SetThenGet(vars: seq<Tensor>, index: Index, value: real)
    requires AllWellShaped(vars)
    requires Target(Shapes(vars), index).Ok?
    ensures Item(Written(vars, index, value).value, index) == Ok(value)
  {
    assert Shapes(Written(vars, index, value).value) == Shapes(vars);
  }

  /**
    * A write changes exactly one element: every other element of every
    * variable, and every shape, stays as it was.
    */
  lemma WriteChangesOneElement(vars: seq<Tensor>, index: Index, value: real, u: nat, y: nat)
    requires AllWellShaped(vars)
    requires Target(Shapes(vars), index).Ok? && Target(Shapes(vars), index).value != (u, y)
    requires u < |vars| && y < |vars[u].data|
    ensures Written(vars, index, value).value[u].data[y] == vars[u].data[y]
  {
  }

  /** Variables the flat view can address without error: none empty, each a vector or a matrix. */
  predicate Addressable(shapes: seq<seq<nat>>) {
    forall k :: 0 <= k < |shapes| ==> Size(shapes[k]) > 0 && (|shapes[k]| == 1 || |shapes[k]| == 2)
  }

  /**
    * The flat view in full: an index between the running totals before
    * and after variable p names element index - (total before p) of that
    * variable, in row-major order.
    */
  lemma TargetInRange(shapes: seq<seq<nat>>, n: int, p: nat)
    requires Addressable(shapes)
    requires p < |shapes| && Total(Sizes(shapes)[..p]) <= n < Total(Sizes(shapes)[..p + 1])
    ensures Target(shapes, IntIndex(n)) == Ok((p, n - Total(Sizes(shapes)[..p])))
  {
    LocateInVariable(shapes, n, p);
    var local := n - Total(Sizes(shapes)[..p]);
    WithinBounds(p, shapes[p], local, false);
    ShapeSizes(shapes[p]);
  }

  /**
    * Past a 0-d variable nothing can be read or written: with no empty
    * variable, an index that falls in the 0-d variable itself or in any
    * later one meets NotImplementedError (a variable of neither one nor two
    * dimensions) or IndexError (the float subscript numpy refuses).
    */
  lemma NothingPastScalar(shapes: seq<seq<nat>>, n: int, p: nat)
    requires forall k :: 0 <= k < |shapes| ==> Size(shapes[k]) > 0
    requires FirstScalar(shapes).Some? && FirstScalar(shapes).value <= p
    requires p < |shapes| && Total(Sizes(shapes)[..p]) <= n < Total(Sizes(shapes)[..p + 1])
    ensures Target(shapes, IntIndex(n)) ==
      Err(if |shapes[p]| == 1 || |shapes[p]| == 2 then IndexError else NotImplementedError)
  {
    LocateInVariable(shapes, n, p);
    assert FloatKey(shapes, p);
    FloatPositionFails(p, shapes[p], n - Total(Sizes(shapes)[..p]));
  }

  /** A float position inside a vector or matrix is found, and then refused as a subscript. */
  lemma FloatPositionFails(v: nat, shape: seq<nat>, local: int)
    requires 0 <= local < Size(shape)
    ensures var r := Within(v, shape, local, true);
      if |shape| == 1 || |shape| == 2 then r.Ok? && Offset(shape, r.value) == Err(IndexError)
      else r == Err(NotImplementedError)
  {
    WithinBounds(v, shape, local, true);
  }

  /**
    * Every index from 0 up to the number of elements names an element, and
    * different indices name different elements.
    */
  lemma FlatViewInjective(shapes: seq<seq<nat>>, n1: int, n2: int)
    requires Addressable(shapes)
    requires 0 <= n1 < Total(Sizes(shapes)) && 0 <= n2 < Total(Sizes(shapes))
    ensures Target(shapes, IntIndex(n1)).Ok? && Target(shapes, IntIndex(n2)).Ok?
    ensures n1 != n2 ==> Target(shapes, IntIndex(n1)) != Target(shapes, IntIndex(n2))
  {
    var s := Sizes(shapes);
    SomeVariableHolds(s, n1);
    SomeVariableHolds(s, n2);
    var p1 :| 0 <= p1 < |s| && Total(s[..p1]) <= n1 < Total(s[..p1 + 1]);
    var p2 :| 0 <= p2 < |s| && Total(s[..p2]) <= n2 < Total(s[..p2 + 1]);
    TargetInRange(shapes, n1, p1);
    TargetInRange(shapes, n2, p2);
  }

  /**
    * A negative index reaches past no key, so it resolves in the first
    * variable; for a vector of biases numpy then counts it from that
    * vector's end, not from the end of the network.
    */
  lemma NegativeIndexStaysInFirstVariable(shapes: seq<seq<nat>>, n: int)
    requires Addressable(shapes) && shapes != [] && |shapes[0]| == 1
    requires -(Size(shapes[0]) as int) <= n < 0
    ensures Target(shapes, IntIndex(n)) == Ok((0, n + Size(shapes[0])))
  {
    MapOfPositive(Sizes(shapes));
    assert Sizes(shapes)[..1][..0] == [];
    assert Total(Sizes(shapes)[..1]) == Total(Sizes(shapes)[..1][..0]) + Sizes(shapes)[0];
    assert MapOf(Sizes(shapes))[0].0 == Size(shapes[0]);
    FirstAboveAt(MapOf(Sizes(shapes)), n, 0);
    LocateInAt(shapes, IntIndex(n), 0, 0, shapes[0], n);
    ShapeSizes(shapes[0]);
  }

  /**
    * A first variable with no columns is reached without a key collision:
    * index -1 stops at its key 0, and the row -1 / 0 is -inf, which int()
    * refuses with OverflowError.
    */
  lemma NegativeIndexNoColumns()
    ensures LocateIn([[3, 0]], IntIndex(-1)) == Err(OverflowError)
  {
    assert Sizes([[3, 0]]) == [0] by { ShapeSizes([3, 0]); }
  }

  /**
    * A 0-d variable followed by a vector of ten: the keys are 1.0 and
    * 11.0, index 5 becomes the float subscript 4.0, and len() is refused.
    */
  lemma ScalarThenVector()
    ensures Target([[], [10]], IntIndex(5)) == Err(IndexError)
    ensures Target([[], [10]], IntIndex(0)) == Err(NotImplementedError)
    ensures FlatLen([[], [10]]) == Err(TypeError)
  {
    var shapes: seq<seq<nat>> := [[], [10]];
    var s := Sizes(shapes);
    assert Size(shapes[1]) == 10 by { ShapeSizes(shapes[1]); }
    assert s[..0] == [] && s[..1][..0] == [] && s[..2][..1] == s[..1] && s[..2] == s;
    assert Total(s[..1]) == 1 && Total(s) == 11;
    NothingPastScalar(shapes, 5, 1);
    NothingPastScalar(shapes, 0, 0);
    FlatLenIsTotal(shapes);
  }

  /**
    * The for ... break ... else loop of _readBrainMap: walk the map in
    * insertion order and stop at the first key above the index.
    */
  method FindKey(m: BrainMap, n: int) returns (found: Option<nat>)
    ensures found == FirstAbove(m, n)
  {
    var p := 0;
    while p < |m|
      invariant 0 <= p <= |m|
      invariant forall q :: 0 <= q < p ==> m[q].0 <= n
    {
      if n < m[p].0 {
        FirstAboveAt(m, n, p);
        return Some(p);
      }
      p := p + 1;
    }
    return None;
  }

  // ---------------------------------------------------------------------
  // The network
  // ---------------------------------------------------------------------

  class BrainDNN {
    /** The values of the network's trainable variables, in order. */
    var variables: seq<Tensor>
    /** _brainMap, once the brainMap property has built it. */
    var cache: Option<BrainMap>

    ghost predicate Valid()
      reads this
    {
      && AllWellShaped(variables)
      && (cache.Some? ==> cache.value == MapOf(Sizes(Shapes(variables))))
    }

    constructor (vars: seq<Tensor>)
      requires AllWellShaped(vars)
      ensures Valid() && variables == vars && cache == None
    {
      variables := vars;
      cache := None;
    }

    /**
      * The brainMap property: on first use, walk the variables keeping a
      * running count of their elements and key each count to its variable;
      * afterwards, the cached map.
      */
    method GetBrainMap() returns (m: BrainMap)
      requires Valid()
      modifies this`cache
      ensures Valid() && m == MapOf(Sizes(Shapes(variables))) && cache == Some(m)
    {
      if cache.Some? {
        return cache.value;
      }
      var s := Sizes(Shapes(variables));
      m := [];
      var maxIndexForVariable := 0;
      var i := 0;
      while i < |variables|
        invariant 0 <= i <= |variables|
        invariant m == MapOf(s[..i]) && maxIndexForVariable == Total(s[..i])
      {
        // s[i] is np.prod of the shape of variable i
        maxIndexForVariable := maxIndexForVariable + s[i];
        assert s[..i + 1][..i] == s[..i];
        assert Total(s[..i + 1]) == maxIndexForVariable;
        m := Put(m, maxIndexForVariable, i);
        i := i + 1;
      }
      assert s[..|variables|] == s;
      cache := Some(m);
    }

    /** __len__: max() of the keys, refused by Python when it is a float. */
    method Length() returns (r: Result<int, BrainError>)
      requires Valid()
      modifies this`cache
      ensures Valid()
      ensures r == FlatLen(Shapes(variables))
    {
      var m := GetBrainMap();
      r := Len(m);
      if r.Ok? && FirstScalar(Shapes(variables)).Some? {
        r := Err(TypeError);
      }
    }

    /** _readBrainMap, with the for ... break ... else loop over the map. */
    method ReadBrainMap(index: Index) returns (r: Result<Location, BrainError>)
      requires Valid()
      modifies this`cache
      ensures Valid() && cache.Some?
      ensures r == LocateIn(Shapes(variables), index)
    {
      var m := GetBrainMap();
      if index.OtherIndex? {
        return Err(TypeError);
      }
      var n := IndexValue(index);
      var found := FindKey(m, n);
      if found.None? {
        return Err(IndexError);
      }
      var p := found.value;
      MapOfKeys(Sizes(Shapes(variables)));
      var (key, v) := m[p];
      var t := variables[v];
      var local := n - key + Size(t.shape);
      // whether key or np.prod(t.shape) is a numpy float
      var floating := FloatKey(Shapes(variables), v);
      LocateAt(Shapes(variables), m, index, p, v, t.shape, local);
      r := Within(v, t.shape, local, floating);
    }

    /** __getitem__: the element the index resolves to. */
    method GetItem(index: Index) returns (r: Result<real, BrainError>)
      requires Valid()
      modifies this`cache
      ensures Valid() && cache.Some?
      ensures r == Item(variables, index)
    {
      var loc := ReadBrainMap(index);
      if loc.Err? {
        return Err(loc.error);
      }
      var t := variables[loc.value.v];
      var x := Offset(t.shape, loc.value);
      if x.Err? {
        return Err(x.error);
      }
      r := Ok(t.data[x.value]);
    }

    /**
      * __setitem__: write value at the element the index resolves to and
      * store the variable back; on an error nothing changes.
      */
    method SetItem(index: Index, value: real) returns (r: Result<(), BrainError>)
      requires Valid()
      modifies this`cache, this`variables
      ensures Valid() && cache.Some?
      ensures r.Ok? <==> Target(Shapes(old(variables)), index).Ok?
      ensures variables == if r.Ok? then Written(old(variables), index, value).value else old(variables)
    {
      var loc := ReadBrainMap(index);
      if loc.Err? {
        return Err(loc.error);
      }
      var v := loc.value.v;
      var t := variables[v];
      var x := Offset(t.shape, loc.value);
      if x.Err? {
        return Err(x.error);
      }
      ghost var before := variables;
      variables := variables[v := t.(data := t.data[x.value := value])];
      assert Shapes(variables) == Shapes(before);
      r := Ok(());
    }
  }
}
