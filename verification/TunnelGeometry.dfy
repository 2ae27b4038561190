/** The cells of a tunnel, slice by slice, and the windows the miner looks at. */
module TunnelGeometry {
  import opened Options

  datatype Cell = Cell(x: int, y: int, z: int)

  datatype Vector = Vector(x: int, y: int, z: int)

  /** Width and height of the cross section; a size that is not positive spans nothing. */
  datatype Section = Section(width: int, height: int)

  datatype Tunnel = Tunnel(anchor: Cell, direction: Vector, section: Section) {
    predicate Straight() {
      direction.y == 0 && LateralVector(direction).Some?
    }

    function W(): nat {
      if section.width > 0 then section.width else 0
    }

    function H(): nat {
      if section.height > 0 then section.height else 0
    }

    /** The cell s slices ahead, a across and b up. */
    function At(s: int, a: int, b: int): Cell
      requires Straight()
    {
      var l := LateralVector(direction).value;
      Cell(anchor.x + direction.x * s + l.x * a, anchor.y + b + l.y * a, anchor.z + direction.z * s + l.z * a)
    }

    function Column(s: int, a: int, b: nat): seq<Cell>
      requires Straight()
    {
      if b == 0 then [] else Column(s, a, b - 1) + [At(s, a, b - 1)]
    }

    function Slice(s: int, a: nat): seq<Cell>
      requires Straight()
    {
      if a == 0 then [] else Slice(s, a - 1) + Column(s, a - 1, H())
    }

    /** n slices from s on. */
    function Cells(s: int, n: nat): seq<Cell>
      requires Straight()
    {
      if n == 0 then [] else Cells(s, n - 1) + Slice(s + n - 1, W())
    }

    /** Whether a cell lies in those slices. */
    ghost predicate Contains(s: int, n: int, c: Cell)
      requires Straight()
    {
      exists i, a, b :: s <= i < s + n && 0 <= a < section.width && 0 <= b < section.height && c == At(i, a, b)
    }
  }

  function LateralVector(d: Vector): Option<Vector> {
    if d.x in {1, -1} && d.z == 0 then Some(Vector(0, 0, 1))
    else if d.z in {1, -1} && d.x == 0 then Some(Vector(1, 0, 0))
    else None
  }

  /** Towards the right-hand wall. */
  function RightVector(d: Vector): Option<Vector> {
    if d.x == 1 && d.z == 0 then Some(Vector(0, 0, -1))
    else if d.x == -1 && d.z == 0 then Some(Vector(0, 0, 1))
    else if d.z == 1 && d.x == 0 then Some(Vector(-1, 0, 0))
    else if d.z == -1 && d.x == 0 then Some(Vector(1, 0, 0))
    else None
  }

  /** Where the torch of a step goes. */
  function TorchPosition(t: Tunnel, step: nat): Cell
    requires t.Straight()
  {
    var right := RightVector(t.direction).value;
    Cell(t.anchor.x + t.direction.x * step + right.x, t.anchor.y + 1, t.anchor.z + t.direction.z * step + right.z)
  }

  /** Lists the cells of a window, or fails for a direction that is not horizontal and straight. */
  method GenerateWindow(t: Tunnel, step: int, window: int) returns (r: Option<seq<Cell>>)
    ensures r == if t.Straight() then Some(t.Cells(step, if window > 0 then window else 0)) else None
  {
    if t.direction.y != 0 {
      return None;
    }
    var lateral := LateralVector(t.direction);
    if lateral.None? {
      return None;
    }
    var cells := [];
    for offset := 0 to if window > 0 then window else 0
      invariant cells == t.Cells(step, offset)
    {
      var baseX := t.anchor.x + t.direction.x * (step + offset);
      var baseZ := t.anchor.z + t.direction.z * (step + offset);
      for w := 0 to t.W()
        invariant cells == t.Cells(step, offset) + t.Slice(step + offset, w)
      {
        for h := 0 to t.H()
          invariant cells == t.Cells(step, offset) + t.Slice(step + offset, w) + t.Column(step + offset, w, h)
        {
          cells := cells + [Cell(baseX + lateral.value.x * w, t.anchor.y + h + lateral.value.y * w,
            baseZ + lateral.value.z * w)];
        }
      }
    }
    r := Some(cells);
  }

  // ---------------------------------------------------------------------
  // The enumeration
  // ---------------------------------------------------------------------

  /** Different offsets are different cells. */
  lemma AtIsInjective(t: Tunnel, s: int, a: int, b: int, s': int, a': int, b': int)
    requires t.Straight() && t.At(s, a, b) == t.At(s', a', b')
    ensures s == s' && a == a' && b == b'
  {
  }

  /** Main result: a torch goes into the tunnel exactly if it runs towards smaller coordinates and is
      at least two wide and two high. Towards greater ones it goes into the wall, on the side that
      the tunnel does not extend to. */
  lemma TorchInTunnelIff(t: Tunnel, n: nat, step: nat)
    requires t.Straight() && step < n
    ensures t.Contains(0, n, TorchPosition(t, step)) <==>
      t.direction.x + t.direction.z == -1 && t.section.width >= 2 && t.section.height >= 2
  {
    var side := if t.direction.x + t.direction.z == -1 then 1 else -1;
    assert TorchPosition(t, step) == t.At(step, side, 1);
    if t.Contains(0, n, TorchPosition(t, step)) {
      var i, a, b :| 0 <= i < n && 0 <= a < t.section.width && 0 <= b < t.section.height
        && TorchPosition(t, step) == t.At(i, a, b);
      AtIsInjective(t, step, side, 1, i, a, b);
    }
  }

  lemma {:induction false} ColumnCells(t: Tunnel, s: int, a: int, b: nat)
    requires t.Straight()
    ensures |t.Column(s, a, b)| == b
    ensures forall k | 0 <= k < b :: t.Column(s, a, b)[k] == t.At(s, a, k)
  {
    if b > 0 {
      ColumnCells(t, s, a, b - 1);
    }
  }

  ghost predicate NoTwins(cs: seq<Cell>) {
    forall i, j | 0 <= i < j < |cs| :: cs[i] != cs[j]
  }

  lemma Appended(xs: seq<Cell>, ys: seq<Cell>)
    requires NoTwins(xs) && NoTwins(ys) && forall x, y | x in xs && y in ys :: x != y
    ensures NoTwins(xs + ys)
  {
    forall i, j | 0 <= i < j < |xs + ys|
      ensures (xs + ys)[i] != (xs + ys)[j]
    {
      if i < |xs| <= j {
        assert xs[i] in xs && ys[j - |xs|] in ys;
      }
    }
  }

  lemma {:induction false} SliceCells(t: Tunnel, s: int, a: nat)
    requires t.Straight()
    ensures |t.Slice(s, a)| == a * t.H()
    ensures forall i, j | 0 <= i < a && 0 <= j < t.H() :: t.At(s, i, j) in t.Slice(s, a)
    ensures forall c | c in t.Slice(s, a) :: exists i, j :: 0 <= i < a && 0 <= j < t.H() && c == t.At(s, i, j)
  {
    hide Tunnel.At;
    if a > 0 {
      SliceCells(t, s, a - 1);
      ColumnCells(t, s, a - 1, t.H());
      assert a * t.H() == (a - 1) * t.H() + t.H();
    }
  }

  lemma ColumnNoTwins(t: Tunnel, s: int, a: int, b: nat)
    requires t.Straight()
    ensures NoTwins(t.Column(s, a, b))
  {
    hide Tunnel.At;
    ColumnCells(t, s, a, b);
    var column := t.Column(s, a, b);
    forall i, j | 0 <= i < j < |column|
      ensures column[i] != column[j]
    {
      if column[i] == column[j] {
        AtIsInjective(t, s, a, i, s, a, j);
      }
    }
  }

  lemma SliceMissesColumn(t: Tunnel, s: int, a: nat)
    requires t.Straight()
    ensures forall c, d | c in t.Slice(s, a) && d in t.Column(s, a, t.H()) :: c != d
  {
    hide Tunnel.At;
    SliceCells(t, s, a);
    ColumnCells(t, s, a, t.H());
    var before, column := t.Slice(s, a), t.Column(s, a, t.H());
    forall c, d | c in before && d in column
      ensures c != d
    {
      var a', b' :| 0 <= a' < a && 0 <= b' < t.H() && c == t.At(s, a', b');
      var j :| 0 <= j < |column| && d == column[j];
      if c == d {
        AtIsInjective(t, s, a', b', s, a, j);
      }
    }
  }

  lemma {:induction false} SliceNoTwins(t: Tunnel, s: int, a: nat)
    requires t.Straight()
    ensures NoTwins(t.Slice(s, a))
  {
    hide Tunnel.At;
    if a > 0 {
      var before, column := t.Slice(s, a - 1), t.Column(s, a - 1, t.H());
      SliceNoTwins(t, s, a - 1);
      ColumnNoTwins(t, s, a - 1, t.H());
      SliceMissesColumn(t, s, a - 1);
      Appended(before, column);
    }
  }

  /** Main result: the cells of n slices are each listed once, and nothing else is. */
  lemma {:induction false} CellsEnumerate(t: Tunnel, s: int, n: nat)
    requires t.Straight()
    ensures |t.Cells(s, n)| == n * (t.W() * t.H())
    ensures NoTwins(t.Cells(s, n))
    ensures forall c :: c in t.Cells(s, n) <==> t.Contains(s, n, c)
  {
    hide Tunnel.At;
    if n > 0 {
      CellsEnumerate(t, s, n - 1);
      SliceCells(t, s + n - 1, t.W());
      SliceNoTwins(t, s + n - 1, t.W());
      var before, slice := t.Cells(s, n - 1), t.Slice(s + n - 1, t.W());
      assert n * (t.W() * t.H()) == (n - 1) * (t.W() * t.H()) + t.W() * t.H();
      forall c, d | c in before && d in slice
        ensures c != d
      {
        var i, a, b :| s <= i < s + (n - 1)
          && 0 <= a < t.section.width && 0 <= b < t.section.height && c == t.At(i, a, b);
        var a', b' :| 0 <= a' < t.W() && 0 <= b' < t.H() && d == t.At(s + n - 1, a', b');
        if c == d {
          AtIsInjective(t, i, a, b, s + n - 1, a', b');
        }
      }
      Appended(before, slice);
    }
  }

  lemma {:induction false} CellsSplit(t: Tunnel, s: int, m: nat, n: nat)
    requires t.Straight()
    ensures t.Cells(s, m + n) == t.Cells(s, m) + t.Cells(s + m, n)
    decreases n
  {
    if n > 0 {
      CellsSplit(t, s, m, n - 1);
      assert s + (m + n) - 1 == (s + m) + n - 1;
    }
  }

  /** Main result: a window is the slice of the whole tunnel's enumeration that its place says. */
  lemma WindowIsSlice(t: Tunnel, step: nat, window: nat, length: nat)
    requires t.Straight() && step + window <= length
    ensures step * (t.W() * t.H()) <= (step + window) * (t.W() * t.H()) <= |t.Cells(0, length)|
    ensures t.Cells(step, window) == t.Cells(0, length)[step * (t.W() * t.H())..(step + window) * (t.W() * t.H())]
  {
    var area := t.W() * t.H();
    CellsSplit(t, 0, step, window);
    CellsSplit(t, 0, step + window, length - (step + window));
    CellsEnumerate(t, 0, step);
    CellsEnumerate(t, 0, step + window);
    CellsEnumerate(t, 0, length);
  }
}
