/**
 The projective transform of a scanned document (apps/web/src/purchase-wizard/media-utils.ts), over
 the real numbers: eight linear equations solved in place by Gauss-Jordan elimination with pivoting.
 */
module Homography {
  import opened Results

  const SIZE := 8

  /** Below this a pivot, or a denominator, counts as zero. */
  const TINY := 0.0000000001

  function Abs(x: real): real {
    if x < 0.0 then -x else x
  }

  // ---- Equations -----------------------------------------------------------------------

  /** A row is one equation: eight coefficients and the right-hand side. */
  predicate Shaped(rows: seq<seq<real>>) {
    |rows| == SIZE && forall r | 0 <= r < SIZE :: |rows[r]| == SIZE + 1
  }

  function Dot(row: seq<real>, v: seq<real>, n: nat): real
    requires n <= |row| && n <= |v|
  {
    if n == 0 then 0.0 else Dot(row, v, n - 1) + row[n - 1] * v[n - 1]
  }

  predicate Satisfies(row: seq<real>, v: seq<real>) {
    |row| == SIZE + 1 && |v| == SIZE && Dot(row, v, SIZE) == row[SIZE]
  }

  predicate Solves(rows: seq<seq<real>>, v: seq<real>) {
    forall r | 0 <= r < |rows| :: Satisfies(rows[r], v)
  }

  ghost predicate SameSolutions(x: seq<seq<real>>, y: seq<seq<real>>) {
    forall v: seq<real> | |v| == SIZE :: Solves(x, v) <==> Solves(y, v)
  }

  // ---- The three row operations keep the solutions -------------------------------------

  function Swapped(rows: seq<seq<real>>, i: nat, j: nat): seq<seq<real>>
    requires i < |rows| && j < |rows|
  {
    rows[i := rows[j]][j := rows[i]]
  }

  lemma SwapKeeps(rows: seq<seq<real>>, i: nat, j: nat)
    requires Shaped(rows) && i < SIZE && j < SIZE
    ensures Shaped(Swapped(rows, i, j)) && SameSolutions(rows, Swapped(rows, i, j))
  {
    var next := Swapped(rows, i, j);
    forall v: seq<real> | |v| == SIZE
      ensures Solves(rows, v) <==> Solves(next, v)
    {
      if Solves(rows, v) {
        assert Satisfies(rows[i], v) && Satisfies(rows[j], v);
      }
      if Solves(next, v) {
        assert Satisfies(next[i], v) && Satisfies(next[j], v);
        forall r | 0 <= r < SIZE
          ensures Satisfies(rows[r], v)
        {
          assert Satisfies(next[r], v);
        }
      }
    }
  }

  lemma {:induction false} DotScaled(row: seq<real>, next: seq<real>, d: real, v: seq<real>, n: nat)
    requires n <= |row| && |next| == |row| && n <= |v|
    requires forall k | 0 <= k < n :: next[k] * d == row[k]
    ensures Dot(next, v, n) * d == Dot(row, v, n)
  {
    if 0 < n {
      DotScaled(row, next, d, v, n - 1);
      var x, y, s := next[n - 1], v[n - 1], Dot(next, v, n - 1);
      assert (s + x * y) * d == s * d + (x * d) * y;
    }
  }

  lemma Cancel(x: real, y: real, d: real)
    requires d != 0.0 && x * d == y * d
    ensures x == y
  {
    assert (x - y) * d == 0.0;
  }

  lemma ScaledSatisfies(row: seq<real>, next: seq<real>, d: real, v: seq<real>)
    requires |row| == |next| == SIZE + 1 && |v| == SIZE && d != 0.0
    requires forall k | 0 <= k <= SIZE :: next[k] * d == row[k]
    ensures Satisfies(row, v) <==> Satisfies(next, v)
  {
    DotScaled(row, next, d, v, SIZE);
    if Satisfies(row, v) {
      Cancel(Dot(next, v, SIZE), next[SIZE], d);
    }
  }

  lemma {:induction false} DotReduced(row: seq<real>, pivot: seq<real>, next: seq<real>, f: real, v: seq<real>, n: nat)
    requires n <= |row| && |next| == |row| && |pivot| == |row| && n <= |v|
    requires forall k | 0 <= k < n :: next[k] == row[k] - f * pivot[k]
    ensures Dot(next, v, n) == Dot(row, v, n) - f * Dot(pivot, v, n)
  {
    if 0 < n {
      DotReduced(row, pivot, next, f, v, n - 1);
      var a, p, y, s := row[n - 1], pivot[n - 1], v[n - 1], Dot(pivot, v, n - 1);
      assert (a - f * p) * y == a * y - f * (p * y);
      assert f * (s + p * y) == f * s + f * (p * y);
    }
  }

  /** With the pivot row satisfied, a reduced row says the same as the row it came from. */
  lemma ReducedSatisfies(row: seq<real>, pivot: seq<real>, next: seq<real>, f: real, v: seq<real>)
    requires |row| == |pivot| == |next| == SIZE + 1 && |v| == SIZE && Satisfies(pivot, v)
    requires forall k | 0 <= k <= SIZE :: next[k] == row[k] - f * pivot[k]
    ensures Satisfies(row, v) <==> Satisfies(next, v)
  {
    DotReduced(row, pivot, next, f, v, SIZE);
    assert Dot(pivot, v, SIZE) == pivot[SIZE];
  }

  /** Only row i changed, and the row says the same to whoever satisfies the others. */
  lemma OneRowKeeps(rows: seq<seq<real>>, next: seq<seq<real>>, i: nat)
    requires Shaped(rows) && Shaped(next) && i < SIZE && next == rows[i := next[i]]
    requires forall v: seq<real> | |v| == SIZE && (forall r | 0 <= r < SIZE && r != i :: Satisfies(rows[r], v)) ::
      (Satisfies(rows[i], v) <==> Satisfies(next[i], v))
    ensures SameSolutions(rows, next)
  {
    forall v: seq<real> | |v| == SIZE
      ensures Solves(rows, v) <==> Solves(next, v)
    {
      if Solves(next, v) {
        forall r | 0 <= r < SIZE && r != i
          ensures Satisfies(rows[r], v)
        {
          assert Satisfies(next[r], v);
        }
        assert Satisfies(next[i], v);
      }
    }
  }

  lemma ScaleKeeps(rows: seq<seq<real>>, next: seq<seq<real>>, i: nat, d: real)
    requires Shaped(rows) && Shaped(next) && i < SIZE && next == rows[i := next[i]] && d != 0.0
    requires forall k | 0 <= k <= SIZE :: next[i][k] * d == rows[i][k]
    ensures SameSolutions(rows, next)
  {
    forall v: seq<real> | |v| == SIZE
      ensures Satisfies(rows[i], v) <==> Satisfies(next[i], v)
    {
      ScaledSatisfies(rows[i], next[i], d, v);
    }
    OneRowKeeps(rows, next, i);
  }

  lemma ReduceKeeps(rows: seq<seq<real>>, next: seq<seq<real>>, i: nat, p: nat, f: real)
    requires Shaped(rows) && Shaped(next) && i < SIZE && p < SIZE && p != i && next == rows[i := next[i]]
    requires forall k | 0 <= k <= SIZE :: next[i][k] == rows[i][k] - f * rows[p][k]
    ensures SameSolutions(rows, next)
  {
    forall v: seq<real> | |v| == SIZE && (forall r | 0 <= r < SIZE && r != i :: Satisfies(rows[r], v))
      ensures Satisfies(rows[i], v) <==> Satisfies(next[i], v)
    {
      assert Satisfies(rows[p], v);
      ReducedSatisfies(rows[i], rows[p], next[i], f, v);
    }
    OneRowKeeps(rows, next, i);
  }

  lemma SolutionsChain(x: seq<seq<real>>, y: seq<seq<real>>, z: seq<seq<real>>)
    requires SameSolutions(x, y) && SameSolutions(y, z)
    ensures SameSolutions(x, z)
  {
    forall v: seq<real> | |v| == SIZE
      ensures Solves(x, v) <==> Solves(z, v)
    {
      assert Solves(x, v) <==> Solves(y, v);
    }
  }

  // ---- Elimination, one column at a time -----------------------------------------------

  /** The first columns are those of the identity matrix. */
  predicate Reduced(rows: seq<seq<real>>, columns: nat)
    requires Shaped(rows) && columns <= SIZE
  {
    forall r, k | 0 <= r < SIZE && 0 <= k < columns :: rows[r][k] == if r == k then 1.0 else 0.0
  }

  /** No row from the diagonal on has a usable pivot in this column. */
  predicate Pivotless(rows: seq<seq<real>>, column: nat)
    requires Shaped(rows) && column < SIZE
  {
    forall r | column <= r < SIZE :: Abs(rows[r][column]) < TINY
  }

  /** The first row of largest entry, among those from the diagonal up to row n. */
  function Largest(rows: seq<seq<real>>, column: nat, n: nat): (pivot: nat)
    requires Shaped(rows) && column < n <= SIZE
    ensures column <= pivot < n
    decreases n
  {
    if n == column + 1 then column
    else
      var best := Largest(rows, column, n - 1);
      if Abs(rows[n - 1][column]) > Abs(rows[best][column]) then n - 1 else best
  }

  lemma {:induction false} LargestBounds(rows: seq<seq<real>>, column: nat, n: nat, r: nat)
    requires Shaped(rows) && column <= r < n <= SIZE
    ensures Abs(rows[r][column]) <= Abs(rows[Largest(rows, column, n)][column])
    decreases n
  {
    if r < n - 1 {
      LargestBounds(rows, column, n - 1, r);
    }
  }

  /** A row divided by its entry in the column, from the column on. */
  function Divided(row: seq<real>, column: nat): (next: seq<real>)
    requires |row| == SIZE + 1 && column < SIZE && row[column] != 0.0
    ensures |next| == SIZE + 1
  {
    seq(SIZE + 1, k requires 0 <= k <= SIZE => if k < column then row[k] else row[k] / row[column])
  }

  /** A row less the multiple of the pivot row that clears the column, from the column on. */
  function Lessened(row: seq<real>, pivot: seq<real>, column: nat): (next: seq<real>)
    requires |row| == |pivot| == SIZE + 1 && column < SIZE
    ensures |next| == SIZE + 1
  {
    seq(SIZE + 1, k requires 0 <= k <= SIZE => if k < column then row[k] else row[k] - row[column] * pivot[k])
  }

  function Placed(rows: seq<seq<real>>, column: nat, pivot: nat): (next: seq<seq<real>>)
    requires Shaped(rows) && column <= pivot < SIZE && rows[pivot][column] != 0.0
    ensures Shaped(next)
  {
    Swapped(rows, column, pivot)[column := Divided(rows[pivot], column)]
  }

  function Cleared(rows: seq<seq<real>>, column: nat): (next: seq<seq<real>>)
    requires Shaped(rows) && column < SIZE
    ensures Shaped(next)
  {
    seq(SIZE, r requires 0 <= r < SIZE => if r == column then rows[r] else Lessened(rows[r], rows[column], column))
  }

  /** One column, as long as it has a usable pivot. */
  function Eliminated(rows: seq<seq<real>>, column: nat): (next: seq<seq<real>>)
    requires Shaped(rows) && column < SIZE
    ensures Shaped(next)
  {
    var pivot := Largest(rows, column, SIZE);
    if Abs(rows[pivot][column]) < TINY then rows else Cleared(Placed(rows, column, pivot), column)
  }

  /** The system after so many columns. */
  function After(rows: seq<seq<real>>, columns: nat): (next: seq<seq<real>>)
    requires Shaped(rows) && columns <= SIZE
    ensures Shaped(next)
  {
    if columns == 0 then rows else Eliminated(After(rows, columns - 1), columns - 1)
  }

  /** Elimination meets a column without a usable pivot. */
  ghost predicate Refused(rows: seq<seq<real>>)
    requires Shaped(rows)
  {
    exists column: nat | column < SIZE :: Pivotless(After(rows, column), column)
  }

  lemma LargestTells(rows: seq<seq<real>>, column: nat)
    requires Shaped(rows) && column < SIZE
    ensures Pivotless(rows, column) <==> Abs(rows[Largest(rows, column, SIZE)][column]) < TINY
  {
    hide Largest;
    forall r | column <= r < SIZE
      ensures Abs(rows[r][column]) <= Abs(rows[Largest(rows, column, SIZE)][column])
    {
      LargestBounds(rows, column, SIZE, r);
    }
  }

  // ---- Elimination keeps the solutions -------------------------------------------------

  lemma QuotientTimes(x: real, d: real)
    requires d != 0.0
    ensures x / d * d == x
  {
  }

  lemma DividedTimes(row: seq<real>, column: nat)
    requires |row| == SIZE + 1 && column < SIZE && row[column] != 0.0
    requires forall k | 0 <= k < column :: row[k] == 0.0
    ensures forall k | 0 <= k <= SIZE :: Divided(row, column)[k] * row[column] == row[k]
    ensures Divided(row, column)[column] == 1.0
  {
    var next, d := Divided(row, column), row[column];
    forall k | 0 <= k <= SIZE
      ensures next[k] * d == row[k]
    {
      QuotientTimes(row[k], d);
    }
    SelfQuotient(d);
  }

  lemma SelfQuotient(d: real)
    requires d != 0.0
    ensures d / d == 1.0
  {
  }

  lemma PlacedKeeps(rows: seq<seq<real>>, column: nat, pivot: nat)
    requires Shaped(rows) && column <= pivot < SIZE && rows[pivot][column] != 0.0 && Reduced(rows, column)
    ensures var next := Placed(rows, column, pivot);
      Reduced(next, column) && next[column][column] == 1.0 && SameSolutions(rows, next)
  {
    hide Divided, SameSolutions;
    var swapped, next := Swapped(rows, column, pivot), Placed(rows, column, pivot);
    SwapKeeps(rows, column, pivot);
    forall k | 0 <= k < column
      ensures rows[pivot][k] == 0.0 && rows[column][k] == 0.0
    {
    }
    DividedTimes(rows[pivot], column);
    ScaleKeeps(swapped, next, column, rows[pivot][column]);
    SolutionsChain(rows, swapped, next);
    forall k | 0 <= k < column
      ensures next[column][k] == 0.0
    {
      Cancel(next[column][k], 0.0, rows[pivot][column]);
    }
  }

  /** The first n rows cleared, the others as they were. */
  function ClearedUpTo(rows: seq<seq<real>>, column: nat, n: nat): (next: seq<seq<real>>)
    requires Shaped(rows) && column < SIZE && n <= SIZE
    ensures Shaped(next)
  {
    Cleared(rows, column)[..n] + rows[n..]
  }

  lemma LessenedEverywhere(rows: seq<seq<real>>, column: nat, r: nat)
    requires Shaped(rows) && column < SIZE && r < SIZE && Reduced(rows, column)
    ensures var next := Lessened(rows[r], rows[column], column);
      forall k | 0 <= k <= SIZE :: next[k] == rows[r][k] - rows[r][column] * rows[column][k]
  {
    forall k | 0 <= k < column
      ensures rows[column][k] == 0.0
    {
    }
  }

  lemma OneMoreCleared(rows: seq<seq<real>>, column: nat, n: nat)
    requires Shaped(rows) && column < SIZE && n < SIZE
    ensures ClearedUpTo(rows, column, n + 1) == ClearedUpTo(rows, column, n)[n := Cleared(rows, column)[n]]
    ensures ClearedUpTo(rows, column, n)[n] == rows[n]
    ensures ClearedUpTo(rows, column, n)[column] == rows[column]
  {
  }

  lemma {:induction false} ClearedSolutions(rows: seq<seq<real>>, column: nat, n: nat)
    requires Shaped(rows) && column < SIZE && n <= SIZE && Reduced(rows, column)
    ensures SameSolutions(rows, ClearedUpTo(rows, column, n))
  {
    hide SameSolutions, ClearedUpTo, Lessened, Reduced;
    if n == 0 {
      assert ClearedUpTo(rows, column, 0) == rows by {
        NoneCleared(rows, column);
      }
      SolutionsReflexive(rows);
    } else {
      var m := n - 1;
      ClearedSolutions(rows, column, m);
      OneMoreCleared(rows, column, m);
      var before, next := ClearedUpTo(rows, column, m), ClearedUpTo(rows, column, n);
      if m == column {
        assert next == before;
      } else {
        LessenedEverywhere(rows, column, m);
        ReduceKeeps(before, next, m, column, rows[m][column]);
        SolutionsChain(rows, before, next);
      }
    }
  }

  lemma NoneCleared(rows: seq<seq<real>>, column: nat)
    requires Shaped(rows) && column < SIZE
    ensures ClearedUpTo(rows, column, 0) == rows && ClearedUpTo(rows, column, SIZE) == Cleared(rows, column)
  {
  }

  lemma SolutionsReflexive(rows: seq<seq<real>>)
    ensures SameSolutions(rows, rows)
  {
  }

  lemma ClearedReduced(rows: seq<seq<real>>, column: nat)
    requires Shaped(rows) && column < SIZE && Reduced(rows, column) && rows[column][column] == 1.0
    ensures Reduced(Cleared(rows, column), column + 1)
  {
    var next := Cleared(rows, column);
    forall r, k | 0 <= r < SIZE && 0 <= k < column + 1
      ensures next[r][k] == if r == k then 1.0 else 0.0
    {
      assert k < column ==> rows[r][k] == if r == k then 1.0 else 0.0;
    }
  }

  lemma EliminatedKeeps(rows: seq<seq<real>>, column: nat)
    requires Shaped(rows) && column < SIZE && Reduced(rows, column) && !Pivotless(rows, column)
    ensures Reduced(Eliminated(rows, column), column + 1) && SameSolutions(rows, Eliminated(rows, column))
  {
    hide Placed, Cleared, SameSolutions, Reduced, Largest;
    LargestTells(rows, column);
    var pivot := Largest(rows, column, SIZE);
    PlacedKeeps(rows, column, pivot);
    var placed := Placed(rows, column, pivot);
    ClearedReduced(placed, column);
    ClearedSolutions(placed, column, SIZE);
    NoneCleared(placed, column);
    SolutionsChain(rows, placed, Cleared(placed, column));
  }

  /** Up to the first column without a pivot, elimination keeps the solutions and clears its columns. */
  lemma {:induction false} AfterKeeps(rows: seq<seq<real>>, columns: nat)
    requires Shaped(rows) && columns <= SIZE
    requires forall c: nat | c < columns :: !Pivotless(After(rows, c), c)
    ensures Reduced(After(rows, columns), columns) && SameSolutions(rows, After(rows, columns))
  {
    hide Eliminated, SameSolutions, Pivotless;
    if columns == 0 {
      SolutionsReflexive(rows);
    } else {
      AfterKeeps(rows, columns - 1);
      EliminatedKeeps(After(rows, columns - 1), columns - 1);
      SolutionsChain(rows, After(rows, columns - 1), After(rows, columns));
    }
  }

  // ---- What a refusal means ------------------------------------------------------------

  ghost predicate Unique(rows: seq<seq<real>>, v: seq<real>) {
    |v| == SIZE && forall w: seq<real> | |w| == SIZE :: Solves(rows, w) <==> w == v
  }

  function LastColumn(rows: seq<seq<real>>): seq<real>
    requires Shaped(rows)
  {
    seq(SIZE, r requires 0 <= r < SIZE => rows[r][SIZE])
  }

  /** Elimination that meets a pivot in every column ends with the only solution; so whatever has no
      solution, or several, is refused. */
  lemma SolvedUnlessRefused(rows: seq<seq<real>>)
    requires Shaped(rows) && !Refused(rows)
    ensures Unique(rows, LastColumn(After(rows, SIZE)))
  {
    hide Pivotless, Reduced, After, Solves;
    AfterKeeps(rows, SIZE);
    var last, c := After(rows, SIZE), LastColumn(After(rows, SIZE));
    IdentitySolved(last, c);
    forall w: seq<real> | |w| == SIZE
      ensures Solves(rows, w) <==> w == c
    {
      assert Solves(rows, w) <==> Solves(last, w);
    }
  }

  /** The direction in which a column without any entry from the diagonal on leaves the equations open. */
  function Direction(rows: seq<seq<real>>, column: nat): (u: seq<real>)
    requires Shaped(rows) && column < SIZE
    ensures |u| == SIZE
  {
    seq(SIZE, k requires 0 <= k < SIZE => if k < column then -rows[k][column] else if k == column then 1.0 else 0.0)
  }

  function Added(v: seq<real>, u: seq<real>): (w: seq<real>)
    requires |v| == |u| == SIZE
    ensures |w| == SIZE
  {
    seq(SIZE, k requires 0 <= k < SIZE => v[k] + u[k])
  }

  lemma {:induction false} DotAdded(row: seq<real>, v: seq<real>, u: seq<real>, n: nat)
    requires |row| == SIZE + 1 && |v| == |u| == SIZE && n <= SIZE
    ensures Dot(row, Added(v, u), n) == Dot(row, v, n) + Dot(row, u, n)
  {
    if 0 < n {
      DotAdded(row, v, u, n - 1);
      var a, x, y := row[n - 1], v[n - 1], u[n - 1];
      assert a * (x + y) == a * x + a * y;
    }
  }

  /** The direction changes no equation. */
  lemma {:induction false} DirectionFree(rows: seq<seq<real>>, column: nat, r: nat, n: nat)
    requires Shaped(rows) && column < SIZE && r < SIZE && n <= SIZE && Reduced(rows, column)
    requires forall i | column <= i < SIZE :: rows[i][column] == 0.0
    ensures Dot(rows[r], Direction(rows, column), n) ==
      (if r < column && r < n then -rows[r][column] else 0.0) + (if r < column && column < n then rows[r][column] else 0.0)
  {
    if 0 < n {
      var k := n - 1;
      DirectionFree(rows, column, r, k);
      var x, u := rows[r][k], Direction(rows, column)[k];
      assert x * u == if k == r && r < column then -rows[r][column] else if k == column && r < column then rows[r][column] else 0.0 by {
        if k < column {
          assert x == if r == k then 1.0 else 0.0;
        }
      }
    }
  }

  /** A column whose entries from the diagonal on are zero leaves no unique solution. */
  lemma EmptyColumnOpen(rows: seq<seq<real>>, column: nat, v: seq<real>)
    requires Shaped(rows) && column < SIZE && Reduced(rows, column) && |v| == SIZE
    requires forall i | column <= i < SIZE :: rows[i][column] == 0.0
    ensures !Unique(rows, v)
  {
    hide Reduced, Dot, Direction, Added;
    if Solves(rows, v) {
      var w := Added(v, Direction(rows, column));
      assert w[column] == v[column] + 1.0 by {
        AddedAt(rows, column, v);
      }
      forall r | 0 <= r < SIZE
        ensures Satisfies(rows[r], w)
      {
        assert Satisfies(rows[r], v);
        DotAdded(rows[r], v, Direction(rows, column), SIZE);
        DirectionFree(rows, column, r, SIZE);
      }
      assert Solves(rows, w) && w != v;
    }
  }

  lemma AddedAt(rows: seq<seq<real>>, column: nat, v: seq<real>)
    requires Shaped(rows) && column < SIZE && |v| == SIZE
    ensures Added(v, Direction(rows, column))[column] == v[column] + 1.0
  {
  }

  /** The refusal of a system: there is a first column without a usable pivot, and the system left at
      that point says the same as the one given.  Were the pivots there zero rather than just tiny, the
      system given would have no unique solution. */
  lemma RefusalMeans(rows: seq<seq<real>>) returns (column: nat)
    requires Shaped(rows) && Refused(rows)
    ensures column < SIZE && Pivotless(After(rows, column), column)
    ensures Reduced(After(rows, column), column) && SameSolutions(rows, After(rows, column))
    ensures (forall r | column <= r < SIZE :: After(rows, column)[r][column] == 0.0) ==>
      forall v: seq<real> | |v| == SIZE :: !Unique(rows, v)
  {
    hide Pivotless, Reduced, After, Solves;
    column :| 0 <= column < SIZE && Pivotless(After(rows, column), column);
    column := FirstPivotless(rows, column);
    AfterKeeps(rows, column);
    var left := After(rows, column);
    if forall r | column <= r < SIZE :: left[r][column] == 0.0 {
      forall v: seq<real> | |v| == SIZE
        ensures !Unique(rows, v)
      {
        EmptyColumnOpen(left, column, v);
        if Unique(rows, v) {
          SameUnique(rows, left, v);
        }
      }
    }
  }

  lemma SameUnique(x: seq<seq<real>>, y: seq<seq<real>>, v: seq<real>)
    requires SameSolutions(x, y) && Unique(x, v)
    ensures Unique(y, v)
  {
  }

  lemma {:induction false} FirstPivotless(rows: seq<seq<real>>, column: nat) returns (first: nat)
    requires Shaped(rows) && column < SIZE && Pivotless(After(rows, column), column)
    ensures first <= column && Pivotless(After(rows, first), first)
    ensures forall c: nat | c < first :: !Pivotless(After(rows, c), c)
  {
    hide Pivotless, After;
    if c: nat :| c < column && Pivotless(After(rows, c), c) {
      first := FirstPivotless(rows, c);
    } else {
      first := column;
    }
  }

  /** A solved system is never refused: elimination leaves it as it is. */
  lemma {:induction false} SolvedStays(rows: seq<seq<real>>, columns: nat)
    requires Shaped(rows) && Reduced(rows, SIZE) && columns <= SIZE
    ensures After(rows, columns) == rows
  {
    hide Eliminated, Reduced;
    if 0 < columns {
      SolvedStays(rows, columns - 1);
      EliminatedFixes(rows, columns - 1);
    }
  }

  lemma SolvedNotRefused(rows: seq<seq<real>>)
    requires Shaped(rows) && Reduced(rows, SIZE)
    ensures !Refused(rows)
  {
    hide After;
    forall column: nat | column < SIZE
      ensures !Pivotless(After(rows, column), column)
    {
      SolvedStays(rows, column);
      assert Abs(rows[column][column]) == 1.0;
    }
  }

  lemma {:induction false} DiagonalLargest(rows: seq<seq<real>>, column: nat, n: nat)
    requires Shaped(rows) && Reduced(rows, SIZE) && column < n <= SIZE
    ensures Largest(rows, column, n) == column
    decreases n
  {
    if column + 1 < n {
      DiagonalLargest(rows, column, n - 1);
      assert rows[n - 1][column] == 0.0;
    }
  }

  lemma EliminatedFixes(rows: seq<seq<real>>, column: nat)
    requires Shaped(rows) && Reduced(rows, SIZE) && column < SIZE
    ensures Eliminated(rows, column) == rows
  {
    hide Largest;
    DiagonalLargest(rows, column, SIZE);
    assert rows[column][column] == 1.0;
    assert Divided(rows[column], column) == rows[column];
    assert Placed(rows, column, column) == rows;
    forall r | 0 <= r < SIZE
      ensures Cleared(rows, column)[r] == rows[r]
    {
      if r != column {
        assert rows[r][column] == 0.0;
        assert Lessened(rows[r], rows[column], column) == rows[r];
      }
    }
    assert Cleared(rows, column) == rows;
  }

  /** The threshold is on absolute size: equations with the same tiny coefficient down the diagonal have
      exactly one solution and are refused. */
  lemma TinySystemRefused(rows: seq<seq<real>>, d: real)
    requires Shaped(rows) && 0.0 < d < TINY
    requires forall r, k | 0 <= r < SIZE && 0 <= k < SIZE :: rows[r][k] == if r == k then d else 0.0
    ensures Refused(rows)
    ensures exists v: seq<real> :: Unique(rows, v)
  {
    hide Dot;
    assert Pivotless(After(rows, 0), 0);
    var v := seq(SIZE, r requires 0 <= r < SIZE => rows[r][SIZE] / d);
    forall w: seq<real> | |w| == SIZE
      ensures Solves(rows, w) <==> w == v
    {
      forall r | 0 <= r < SIZE
        ensures Satisfies(rows[r], w) <==> w[r] == v[r]
      {
        DiagonalDot(rows[r], w, r, d, SIZE);
        DivideBack(rows[r][SIZE], w[r], d);
      }
      if Solves(rows, w) {
        forall r | 0 <= r < SIZE
          ensures w[r] == v[r]
        {
          assert Satisfies(rows[r], w);
        }
      }
    }
    assert Unique(rows, v);
  }

  lemma {:induction false} DiagonalDot(row: seq<real>, v: seq<real>, r: nat, d: real, n: nat)
    requires |row| == SIZE + 1 && |v| == SIZE && n <= SIZE && r < SIZE
    requires forall k | 0 <= k < SIZE :: row[k] == if r == k then d else 0.0
    ensures Dot(row, v, n) == if r < n then v[r] * d else 0.0
  {
    if 0 < n {
      DiagonalDot(row, v, r, d, n - 1);
    }
  }

  // ---- The methods ---------------------------------------------------------------------

  method FindPivot(a: array<seq<real>>, column: nat) returns (pivot: nat)
    requires a.Length == SIZE && Shaped(a[..]) && column < SIZE
    ensures pivot == Largest(a[..], column, SIZE)
    ensures column <= pivot < SIZE
    ensures forall r | column <= r < SIZE :: Abs(a[r][column]) <= Abs(a[pivot][column])
  {
    pivot := column;
    for row := column + 1 to SIZE
      invariant pivot == Largest(a[..], column, row)
    {
      if Abs(a[row][column]) > Abs(a[pivot][column]) {
        pivot := row;
      }
    }
    forall r | column <= r < SIZE
      ensures Abs(a[r][column]) <= Abs(a[pivot][column])
    {
      LargestBounds(a[..], column, SIZE, r);
    }
  }

  /** Divides the pivot row, from its own column on. */
  method DivideRow(a: array<seq<real>>, column: nat)
    requires a.Length == SIZE && Shaped(a[..]) && column < SIZE && a[column][column] != 0.0
    modifies a
    ensures a[..] == old(a[..])[column := Divided(old(a[column]), column)]
  {
    var divisor := a[column][column];
    ghost var row := a[column];
    for cell := column to SIZE + 1
      invariant a[..] == old(a[..])[column := a[column]] && |a[column]| == SIZE + 1
      invariant forall k | column <= k < cell :: a[column][k] == row[k] / divisor
      invariant forall k | 0 <= k <= SIZE && !(column <= k < cell) :: a[column][k] == row[k]
    {
      a[column] := a[column][cell := a[column][cell] / divisor];
    }
    assert a[column] == Divided(row, column);
  }

  /** Takes a multiple of the pivot row off another row, from the pivot column on. */
  method ReduceRow(a: array<seq<real>>, row: nat, column: nat)
    requires a.Length == SIZE && Shaped(a[..]) && column < SIZE && row < SIZE && row != column
    modifies a
    ensures a[..] == old(a[..])[row := Lessened(old(a[row]), old(a[column]), column)]
  {
    var factor := a[row][column];
    ghost var before, pivot := a[row], a[column];
    assert factor == before[column];
    for cell := column to SIZE + 1
      invariant a[..] == old(a[..])[row := a[row]] && |a[row]| == SIZE + 1 && a[column] == pivot
      invariant forall k | column <= k < cell :: a[row][k] == before[k] - before[column] * pivot[k]
      invariant forall k | 0 <= k <= SIZE && !(column <= k < cell) :: a[row][k] == before[k]
    {
      a[row] := a[row][cell := a[row][cell] - factor * a[column][cell]];
    }
    forall k | 0 <= k <= SIZE
      ensures a[row][k] == Lessened(before, pivot, column)[k]
    {
    }
    assert a[row] == Lessened(before, pivot, column);
  }

  /** Clears a column everywhere but in the pivot row. */
  method ClearColumn(a: array<seq<real>>, column: nat)
    requires a.Length == SIZE && Shaped(a[..]) && column < SIZE
    modifies a
    ensures a[..] == Cleared(old(a[..]), column)
  {
    hide ClearedUpTo, Cleared, Lessened;
    ghost var rows := a[..];
    NoneCleared(rows, column);
    for row := 0 to SIZE
      invariant a[..] == ClearedUpTo(rows, column, row)
    {
      OneMoreCleared(rows, column, row);
      ClearedRow(rows, column, row);
      if row == column {
        continue;
      }
      ReduceRow(a, row, column);
    }
  }

  lemma ClearedRow(rows: seq<seq<real>>, column: nat, r: nat)
    requires Shaped(rows) && column < SIZE && r < SIZE
    ensures Cleared(rows, column)[r] == if r == column then rows[r] else Lessened(rows[r], rows[column], column)
  {
  }

  /** Brings a usable pivot onto the diagonal and divides its row by it. */
  method PlacePivot(a: array<seq<real>>, column: nat, pivot: nat)
    requires a.Length == SIZE && Shaped(a[..]) && column <= pivot < SIZE && a[pivot][column] != 0.0
    modifies a
    ensures a[..] == Placed(old(a[..]), column, pivot)
  {
    ghost var rows := a[..];
    a[column], a[pivot] := a[pivot], a[column];
    assert a[..] == Swapped(rows, column, pivot);
    DivideRow(a, column);
  }

  datatype Refusal = Unusable | WrongCount

  /** Solves the eight equations in place, or refuses them in the first column that has no usable pivot
      left.  A result is their only solution. */
  method GaussianElimination(a: array<seq<real>>) returns (r: Result<seq<real>, Refusal>)
    requires a.Length == SIZE && Shaped(a[..])
    modifies a
    ensures r.Err? <==> Refused(old(a[..]))
    ensures r.Ok? ==> Unique(old(a[..]), r.value)
  {
    hide After, Pivotless, Unique, Placed, Cleared, Largest, Eliminated;
    ghost var rows := a[..];
    assert After(rows, 0) == rows by {
      NothingEliminated(rows);
    }
    for column := 0 to SIZE
      invariant a[..] == After(rows, column)
      invariant forall c: nat | c < column :: !Pivotless(After(rows, c), c)
    {
      ColumnAt(rows, a[..], column);
      var pivot := FindPivot(a, column);
      if Abs(a[pivot][column]) < TINY {
        return Err(Unusable);
      }
      PlacePivot(a, column, pivot);
      ClearColumn(a, column);
    }
    var coefficients: seq<real> := [];
    for row := 0 to SIZE
      invariant |coefficients| == row && forall k | 0 <= k < row :: coefficients[k] == a[k][SIZE]
    {
      coefficients := coefficients + [a[row][SIZE]];
    }
    assert coefficients == LastColumn(After(rows, SIZE));
    SolvedUnlessRefused(rows);
    r := Ok(coefficients);
  }

  lemma NothingEliminated(rows: seq<seq<real>>)
    requires Shaped(rows)
    ensures After(rows, 0) == rows
  {
  }

  /** What one turn of the loop does. */
  lemma ColumnAt(rows: seq<seq<real>>, before: seq<seq<real>>, column: nat)
    requires Shaped(rows) && column < SIZE && before == After(rows, column)
    ensures Shaped(before)
    ensures var pivot := Largest(before, column, SIZE);
      && (Pivotless(before, column) <==> Abs(before[pivot][column]) < TINY)
      && (!(Abs(before[pivot][column]) < TINY) ==> After(rows, column + 1) == Cleared(Placed(before, column, pivot), column))
  {
    hide Largest, Placed, Cleared;
    LargestTells(before, column);
  }

  /** Equations of the identity matrix spell out their only solution. */
  lemma IdentitySolved(rows: seq<seq<real>>, c: seq<real>)
    requires Shaped(rows) && Reduced(rows, SIZE) && |c| == SIZE && forall k | 0 <= k < SIZE :: c[k] == rows[k][SIZE]
    ensures forall v: seq<real> | |v| == SIZE :: Solves(rows, v) <==> v == c
  {
    forall v: seq<real> | |v| == SIZE
      ensures Solves(rows, v) <==> v == c
    {
      forall r | 0 <= r < SIZE
        ensures Satisfies(rows[r], v) <==> v[r] == c[r]
      {
        DiagonalDot(rows[r], v, r, 1.0, SIZE);
      }
      if Solves(rows, v) {
        forall r | 0 <= r < SIZE
          ensures v[r] == c[r]
        {
          assert Satisfies(rows[r], v);
        }
      }
    }
  }

  // ---- The transform -------------------------------------------------------------------

  datatype Point = Point(x: real, y: real)

  function RowX(s: Point, d: Point): seq<real> {
    [s.x, s.y, 1.0, 0.0, 0.0, 0.0, -d.x * s.x, -d.x * s.y, d.x]
  }

  function RowY(s: Point, d: Point): seq<real> {
    [0.0, 0.0, 0.0, s.x, s.y, 1.0, -d.y * s.x, -d.y * s.y, d.y]
  }

  /** Two equations for each of the four pairs of points. */
  function Equations(source: seq<Point>, target: seq<Point>, n: nat): (r: seq<seq<real>>)
    requires n <= |source| && n <= |target|
    ensures |r| == 2 * n
    ensures forall k | 0 <= k < n :: r[2 * k] == RowX(source[k], target[k]) && r[2 * k + 1] == RowY(source[k], target[k])
  {
    if n == 0 then []
    else Equations(source, target, n - 1) + [RowX(source[n - 1], target[n - 1]), RowY(source[n - 1], target[n - 1])]
  }

  function Affine(a: real, b: real, c: real, p: Point): real {
    a * p.x + b * p.y + c
  }

  function Denominator(m: seq<real>, p: Point): real
    requires |m| == 9
  {
    Affine(m[6], m[7], m[8], p)
  }

  function ProjectPoint(m: seq<real>, p: Point): Result<Point, Refusal> {
    if |m| != 9 then Err(WrongCount)
    else
      var denominator := Denominator(m, p);
      if Abs(denominator) < TINY then Err(Unusable)
      else Ok(Point(Affine(m[0], m[1], m[2], p) / denominator, Affine(m[3], m[4], m[5], p) / denominator))
  }

  ghost predicate RefusedPairs(source: seq<Point>, target: seq<Point>)
    requires |source| == |target| == 4
  {
    EquationsShaped(source, target);
    Refused(Equations(source, target, 4))
  }

  /** The transform, unless its equations are refused, sends each of the four points to its target wherever its
      denominator is not too small; and it is the only one whose last coefficient is 1 that fits. */
  method SolveHomography(source: seq<Point>, target: seq<Point>) returns (r: Result<seq<real>, Refusal>)
    ensures r == Err(WrongCount) <==> |source| != 4 || |target| != 4
    ensures r == Err(Unusable) <==> |source| == |target| == 4 && RefusedPairs(source, target)
    ensures r.Ok? ==> |r.value| == 9 && r.value[8] == 1.0
    ensures r.Ok? ==> forall k | 0 <= k < 4 ::
      Abs(Denominator(r.value, source[k])) >= TINY ==> ProjectPoint(r.value, source[k]) == Ok(target[k])
    ensures r.Ok? ==> forall m: seq<real> | Fits(m, source, target) :: m == r.value
  {
    hide RowX, RowY, ProjectPoint, Denominator, Satisfies, Refused, After;
    if |source| != 4 || |target| != 4 {
      return Err(WrongCount);
    }
    var matrix: seq<seq<real>> := [];
    for index := 0 to 4
      invariant matrix == Equations(source, target, index)
    {
      var s, d := source[index], target[index];
      matrix := matrix + [RowX(s, d), RowY(s, d)];
    }
    ghost var equations := Equations(source, target, 4);
    EquationsShaped(source, target);
    var a := new seq<real>[SIZE](i requires 0 <= i < SIZE => matrix[i]);
    assert a[..] == equations;
    var coefficients := GaussianElimination(a);
    if coefficients.Err? {
      return Err(Unusable);
    }
    var m := coefficients.value + [1.0];
    assert Solves(equations, coefficients.value);
    forall k | 0 <= k < 4 && Abs(Denominator(m, source[k])) >= TINY
      ensures ProjectPoint(m, source[k]) == Ok(target[k])
    {
      PairProjects(equations, coefficients.value, source, target, k);
    }
    forall other: seq<real> | Fits(other, source, target)
      ensures other == m
    {
      FittingSolves(other, source, target);
      assert other == other[..SIZE] + [1.0];
    }
    r := Ok(m);
  }

  lemma EquationsShaped(source: seq<Point>, target: seq<Point>)
    requires |source| == |target| == 4
    ensures Shaped(Equations(source, target, 4))
  {
    hide Equations;
    var e := Equations(source, target, 4);
    forall r | 0 <= r < SIZE
      ensures |e[r]| == SIZE + 1
    {
      var k := r / 2;
      assert e[2 * k] == RowX(source[k], target[k]) && e[2 * k + 1] == RowY(source[k], target[k]);
      assert r == 2 * k || r == 2 * k + 1;
    }
  }

  lemma DotEight(row: seq<real>, v: seq<real>)
    requires 8 <= |row| && |v| == 8
    ensures Dot(row, v, 8) == row[0] * v[0] + row[1] * v[1] + row[2] * v[2] + row[3] * v[3]
                              + row[4] * v[4] + row[5] * v[5] + row[6] * v[6] + row[7] * v[7]
  {
    assert Dot(row, v, 1) == Dot(row, v, 0) + row[0] * v[0];
    assert Dot(row, v, 2) == Dot(row, v, 1) + row[1] * v[1];
    assert Dot(row, v, 3) == Dot(row, v, 2) + row[2] * v[2];
    assert Dot(row, v, 4) == Dot(row, v, 3) + row[3] * v[3];
    assert Dot(row, v, 5) == Dot(row, v, 4) + row[4] * v[4];
    assert Dot(row, v, 6) == Dot(row, v, 5) + row[5] * v[5];
    assert Dot(row, v, 7) == Dot(row, v, 6) + row[6] * v[6];
  }

  /** What the two equations of a pair say: numerator equals target times denominator. */
  lemma RowXSays(s: Point, d: Point, v: seq<real>)
    requires |v| == SIZE
    ensures Satisfies(RowX(s, d), v)
      <==> Affine(v[0], v[1], v[2], s) == d.x * Denominator(v + [1.0], s)
  {
    DotEight(RowX(s, d), v);
    var t := v[6] * s.x + v[7] * s.y;
    assert (-d.x * s.x) * v[6] + (-d.x * s.y) * v[7] == -(d.x * t);
    assert d.x * (t + 1.0) == d.x * t + d.x;
  }

  lemma RowYSays(s: Point, d: Point, v: seq<real>)
    requires |v| == SIZE
    ensures Satisfies(RowY(s, d), v)
      <==> Affine(v[3], v[4], v[5], s) == d.y * Denominator(v + [1.0], s)
  {
    DotEight(RowY(s, d), v);
    var t := v[6] * s.x + v[7] * s.y;
    assert (-d.y * s.x) * v[6] + (-d.y * s.y) * v[7] == -(d.y * t);
    assert d.y * (t + 1.0) == d.y * t + d.y;
  }

  lemma DivideBack(n: real, t: real, d: real)
    requires d != 0.0
    ensures n == t * d <==> n / d == t
  {
    assert t * d / d == t;
    assert n / d * d == n;
  }

  /** Where the denominator is not too small, a point goes to its target exactly when the two
      equations of the pair are satisfied. */
  lemma ProjectsIff(v: seq<real>, s: Point, d: Point)
    requires |v| == SIZE && Abs(Denominator(v + [1.0], s)) >= TINY
    ensures ProjectPoint(v + [1.0], s) == Ok(d) <==> Satisfies(RowX(s, d), v) && Satisfies(RowY(s, d), v)
  {
    hide Satisfies, RowX, RowY, Dot, Affine;
    var m := v + [1.0];
    RowXSays(s, d, v);
    RowYSays(s, d, v);
    assert m[0] == v[0] && m[1] == v[1] && m[2] == v[2] && m[3] == v[3] && m[4] == v[4] && m[5] == v[5];
    var denominator := Denominator(m, s);
    DivideBack(Affine(v[0], v[1], v[2], s), d.x, denominator);
    DivideBack(Affine(v[3], v[4], v[5], s), d.y, denominator);
  }

  lemma PairProjects(equations: seq<seq<real>>, v: seq<real>, source: seq<Point>, target: seq<Point>, k: nat)
    requires |source| == |target| == 4 && k < 4 && |v| == SIZE
    requires equations == Equations(source, target, 4) && Solves(equations, v)
    requires Abs(Denominator(v + [1.0], source[k])) >= TINY
    ensures ProjectPoint(v + [1.0], source[k]) == Ok(target[k])
  {
    hide Satisfies, RowX, RowY, Dot, Equations, ProjectPoint, Denominator;
    assert Satisfies(equations[2 * k], v) && Satisfies(equations[2 * k + 1], v);
    ProjectsIff(v, source[k], target[k]);
  }

  /** A transform with last coefficient 1 that sends every source point to its target. */
  ghost predicate Fits(m: seq<real>, source: seq<Point>, target: seq<Point>) {
    && |m| == 9 && m[8] == 1.0 && |source| == |target| == 4
    && forall k | 0 <= k < 4 :: ProjectPoint(m, source[k]) == Result.Ok(target[k])
  }

  lemma FittingSolves(m: seq<real>, source: seq<Point>, target: seq<Point>)
    requires Fits(m, source, target)
    ensures Solves(Equations(source, target, 4), m[..SIZE])
  {
    hide Equations, ProjectPoint, Satisfies, RowX, RowY;
    var e, v := Equations(source, target, 4), m[..SIZE];
    forall r | 0 <= r < |e|
      ensures Satisfies(e[r], v)
    {
      var k := r / 2;
      assert ProjectPoint(m, source[k]) == Result.Ok(target[k]);
      FittingPair(m, source[k], target[k]);
      assert r == 2 * k || r == 2 * k + 1;
    }
  }

  lemma FittingPair(m: seq<real>, s: Point, d: Point)
    requires |m| == 9 && m[8] == 1.0 && ProjectPoint(m, s) == Ok(d)
    ensures Satisfies(RowX(s, d), m[..SIZE]) && Satisfies(RowY(s, d), m[..SIZE])
  {
    hide Satisfies, RowX, RowY, Dot;
    assert m[..SIZE] + [1.0] == m;
    ProjectsIff(m[..SIZE], s, d);
  }

  /** What a transform does to a point: each coordinate is a numerator over the common denominator, wherever
      that is not too close to zero. */
  lemma ProjectionIs(m: seq<real>, p: Point)
    requires |m| == 9
    ensures var d := m[6] * p.x + m[7] * p.y + m[8];
      if -0.0000000001 < d < 0.0000000001 then ProjectPoint(m, p) == Err(Unusable)
      else
        && ProjectPoint(m, p).Ok?
        && ProjectPoint(m, p).value.x == (m[0] * p.x + m[1] * p.y + m[2]) / d
        && ProjectPoint(m, p).value.y == (m[3] * p.x + m[4] * p.y + m[5]) / d
  {
  }
}
