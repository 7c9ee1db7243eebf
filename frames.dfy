/** The pandas and numpy operations the crawler strings together, over
    sequences of rows: a data frame is modelled by the sequence of its rows. */
module Frames {
  import opened Wrappers

  function Flatten<T>(parts: seq<seq<T>>): seq<T> {
    if parts == [] then [] else parts[0] + Flatten(parts[1..])
  }

  lemma {:induction false} FlattenAppend<T>(a: seq<seq<T>>, b: seq<seq<T>>)
    ensures Flatten(a + b) == Flatten(a) + Flatten(b)
  {
    if a == [] {
      assert a + b == b;
    } else {
      assert (a + b)[1..] == a[1..] + b;
      FlattenAppend(a[1..], b);
    }
  }

  /** `filter(p, xs)`: the elements that pass, in their original order. */
  function Filter<T>(p: T -> bool, xs: seq<T>): (r: seq<T>)
    ensures |r| <= |xs|
  {
    if xs == [] then [] else (if p(xs[0]) then [xs[0]] else []) + Filter(p, xs[1..])
  }

  lemma {:induction false} FilterMembership<T>(p: T -> bool, xs: seq<T>, x: T)
    ensures x in Filter(p, xs) <==> x in xs && p(x)
  {
    if xs != [] {
      FilterMembership(p, xs[1..], x);
      assert xs == [xs[0]] + xs[1..];
    }
  }

  /** Filtering works piece by piece, so the survivors keep their order. */
  lemma {:induction false} FilterAppend<T>(p: T -> bool, a: seq<T>, b: seq<T>)
    ensures Filter(p, a + b) == Filter(p, a) + Filter(p, b)
  {
    if a == [] {
      assert a + b == b;
    } else {
      assert (a + b)[0] == a[0];
      assert (a + b)[1..] == a[1..] + b;
      FilterAppend(p, a[1..], b);
      var h := if p(a[0]) then [a[0]] else [];
      calc {
        Filter(p, a + b);
        h + Filter(p, a[1..] + b);
        h + (Filter(p, a[1..]) + Filter(p, b));
        (h + Filter(p, a[1..])) + Filter(p, b);
        Filter(p, a) + Filter(p, b);
      }
    }
  }

  /** When every element passes, nothing is dropped. */
  lemma {:induction false} FilterKeepsAll<T>(p: T -> bool, xs: seq<T>)
    requires forall i :: 0 <= i < |xs| ==> p(xs[i])
    ensures Filter(p, xs) == xs
  {
    if xs != [] {
      assert p(xs[0]);
      FilterKeepsAll(p, xs[1..]);
      assert xs == [xs[0]] + xs[1..];
    }
  }

  // ---------------------------------------------------------------------
  // Mapping a function that may raise over a sequence, first error wins.

  /** Element `i` is the first on which `f` raises. */
  ghost predicate FirstRaise<T, U>(f: T -> Result<U>, xs: seq<T>, i: int) {
    0 <= i < |xs| && f(xs[i]).Err? && forall j :: 0 <= j < i ==> f(xs[j]).Ok?
  }

  lemma FirstRaiseShift<T, U>(f: T -> Result<U>, xs: seq<T>, e: Exception)
    requires xs != [] && f(xs[0]).Ok?
    requires exists i :: FirstRaise(f, xs[1..], i) && f(xs[1..][i]) == Err(e)
    ensures exists i :: FirstRaise(f, xs, i) && f(xs[i]) == Err(e)
  {
    var i :| FirstRaise(f, xs[1..], i) && f(xs[1..][i]) == Err(e);
    assert FirstRaise(f, xs, i + 1) by {
      forall j | 0 <= j < i + 1 ensures f(xs[j]).Ok? {
        if j > 0 { assert xs[j] == xs[1..][j - 1]; }
      }
    }
  }

  /** `list(map(f, xs))`: one result per element, in order; the first
      exception stops the map and propagates. */
  function MapAll<T, U>(f: T -> Result<U>, xs: seq<T>): (r: Result<seq<U>>)
    ensures r.Ok? <==> forall i :: 0 <= i < |xs| ==> f(xs[i]).Ok?
    ensures r.Ok? ==> |r.value| == |xs| && forall i :: 0 <= i < |xs| ==> f(xs[i]) == Ok(r.value[i])
    ensures r.Err? ==> exists i :: FirstRaise(f, xs, i) && f(xs[i]) == Err(r.error)
  {
    if xs == [] then Ok([])
    else match f(xs[0])
      case Err(e) =>
        assert FirstRaise(f, xs, 0);
        Err(e)
      case Ok(y) =>
        match MapAll(f, xs[1..])
        case Err(e) =>
          FirstRaiseShift(f, xs, e);
          Err(e)
        case Ok(ys) =>
          assert forall i :: 1 <= i < |xs| ==> xs[i] == xs[1..][i - 1];
          Ok([y] + ys)
  }

  /** `pd.concat(map(f, xs))` where `f` builds one frame per element: the
      frames' rows in element order, or the first exception raised. (An
      empty `xs` is left to the callers: pandas refuses to concatenate
      nothing.) */
  function ConcatMap<T, U>(f: T -> Result<seq<U>>, xs: seq<T>): (r: Result<seq<U>>)
    ensures r.Ok? <==> forall i :: 0 <= i < |xs| ==> f(xs[i]).Ok?
    ensures r.Err? ==> exists i :: FirstRaise(f, xs, i) && f(xs[i]) == Err(r.error)
  {
    if xs == [] then Ok([])
    else match f(xs[0])
      case Err(e) =>
        assert FirstRaise(f, xs, 0);
        Err(e)
      case Ok(y) =>
        match ConcatMap(f, xs[1..])
        case Err(e) =>
          FirstRaiseShift(f, xs, e);
          Err(e)
        case Ok(ys) =>
          assert forall i :: 1 <= i < |xs| ==> xs[i] == xs[1..][i - 1];
          Ok(y + ys)
  }

  /** An element that raises makes the whole concatenation raise, with its
      own exception when every element before it returned. */
  lemma ConcatMapRaises<T, U>(f: T -> Result<seq<U>>, xs: seq<T>, k: nat, e: Exception)
    requires k < |xs| && f(xs[k]) == Err(e)
    ensures ConcatMap(f, xs).Err?
    ensures (forall j :: 0 <= j < k ==> f(xs[j]).Ok?) ==> ConcatMap(f, xs) == Err(e)
  {
    var r := ConcatMap(f, xs);
    if forall j :: 0 <= j < k ==> f(xs[j]).Ok? {
      assert FirstRaise(f, xs, k);
      var i :| FirstRaise(f, xs, i) && f(xs[i]) == Err(r.error);
      FirstRaiseUnique(f, xs, i, k);
    }
  }

  lemma FirstRaiseUnique<T, U>(f: T -> Result<U>, xs: seq<T>, i: int, k: int)
    requires FirstRaise(f, xs, i) && FirstRaise(f, xs, k)
    ensures i == k
  {
  }

  /** Sequencing two fallible concatenations: the first error wins. */
  function Then<U>(a: Result<seq<U>>, b: Result<seq<U>>): Result<seq<U>> {
    match a
    case Err(e) => Err(e)
    case Ok(x) => match b { case Err(e) => Err(e) case Ok(y) => Ok(x + y) }
  }

  /** Mapping over two consecutive pieces is mapping over the whole. */
  lemma {:induction false} ConcatMapAppend<T, U>(f: T -> Result<seq<U>>, a: seq<T>, b: seq<T>)
    ensures ConcatMap(f, a + b) == Then(ConcatMap(f, a), ConcatMap(f, b))
  {
    if a == [] {
      assert a + b == b;
      match ConcatMap(f, b) {
        case Ok(y) => assert [] + y == y;
        case Err(_) =>
      }
    } else {
      assert (a + b)[0] == a[0];
      assert (a + b)[1..] == a[1..] + b;
      ConcatMapAppend(f, a[1..], b);
      match f(a[0]) {
        case Err(_) =>
        case Ok(y) =>
          match ConcatMap(f, a[1..]) {
            case Err(_) =>
            case Ok(x) =>
              match ConcatMap(f, b) {
                case Err(_) =>
                case Ok(z) => assert y + (x + z) == (y + x) + z;
              }
          }
      }
    }
  }

  /** Mapping over the pieces of a split and concatenating the pieces'
      results, first error in order winning, is mapping over the whole. */
  lemma {:induction false} ConcatMapFlatten<T, U>(f: T -> Result<seq<U>>, parts: seq<seq<T>>)
    ensures ConcatMap(p => ConcatMap(f, p), parts) == ConcatMap(f, Flatten(parts))
  {
    if parts != [] {
      ConcatMapFlatten(f, parts[1..]);
      ConcatMapAppend(f, parts[0], Flatten(parts[1..]));
    }
  }

  /** Every row of a successful concatenation comes from the frame of some
      element. */
  lemma {:induction false} ConcatMapSource<T, U>(f: T -> Result<seq<U>>, xs: seq<T>, y: U)
    requires ConcatMap(f, xs).Ok? && y in ConcatMap(f, xs).value
    ensures exists i :: 0 <= i < |xs| && f(xs[i]).Ok? && y in f(xs[i]).value
  {
    var y0 := f(xs[0]).value;
    if y !in y0 {
      ConcatMapSource(f, xs[1..], y);
      var i :| 0 <= i < |xs[1..]| && f(xs[1..][i]).Ok? && y in f(xs[1..][i]).value;
      assert xs[1..][i] == xs[i + 1];
    }
  }

  /** Every row of every element's frame is in the concatenation. */
  lemma {:induction false} ConcatMapCovers<T, U>(f: T -> Result<seq<U>>, xs: seq<T>, i: nat, y: U)
    requires ConcatMap(f, xs).Ok? && i < |xs| && f(xs[i]).Ok? && y in f(xs[i]).value
    ensures y in ConcatMap(f, xs).value
  {
    if i > 0 {
      assert xs[1..][i - 1] == xs[i];
      ConcatMapCovers(f, xs[1..], i - 1, y);
    }
  }

  /** A call's outcome taken as it is: `future.get()`, or iterating over
      results already computed. It is the identity; it exists so that the
      results of a pool, already computed, can be concatenated by the same
      ConcatMap and ConcatAll that describe `pd.concat(map(f, xs))`, with
      the first exception in job order winning as `get()` makes it win. */
  function Get<X>(x: Result<X>): Result<X> {
    x
  }

  /** `pd.concat(frames)`: the rows of every frame in order; pandas refuses
      an empty list. */
  function Concat<U>(frames: seq<seq<U>>): (r: Result<seq<U>>)
    ensures frames == [] <==> r == Err(ValueError)
    ensures frames != [] ==> r == Ok(Flatten(frames))
  {
    if frames == [] then Err(ValueError) else Ok(Flatten(frames))
  }

  /** `pd.concat(map(f, xs))`: the map is consumed first, so the first
      exception wins over the refusal of an empty list. */
  function ConcatAll<T, U>(f: T -> Result<seq<U>>, xs: seq<T>): Result<seq<U>> {
    match MapAll(f, xs)
    case Err(e) => Err(e)
    case Ok(frames) => Concat(frames)
  }

  lemma {:induction false} MapAllAppend<T, U>(f: T -> Result<U>, a: seq<T>, b: seq<T>)
    ensures MapAll(f, a + b) == Then(MapAll(f, a), MapAll(f, b))
  {
    if a == [] {
      assert a + b == b;
      match MapAll(f, b) {
        case Ok(y) => assert [] + y == y;
        case Err(_) =>
      }
    } else {
      assert (a + b)[0] == a[0];
      assert (a + b)[1..] == a[1..] + b;
      MapAllAppend(f, a[1..], b);
      match f(a[0]) {
        case Err(_) =>
        case Ok(y) =>
          match MapAll(f, a[1..]) {
            case Err(_) =>
            case Ok(x) =>
              match MapAll(f, b) {
                case Err(_) =>
                case Ok(z) => assert [y] + (x + z) == ([y] + x) + z;
              }
          }
      }
    }
  }

  /** Collecting the frames and then concatenating them is concatenating
      as they come: the same rows, or the same first exception. */
  lemma {:induction false} MapAllFlatten<T, U>(f: T -> Result<seq<U>>, xs: seq<T>)
    ensures MapAll(f, xs).Ok? ==> ConcatMap(f, xs) == Ok(Flatten(MapAll(f, xs).value))
    ensures MapAll(f, xs).Err? ==> ConcatMap(f, xs) == Err(MapAll(f, xs).error)
  {
    if xs != [] {
      MapAllFlatten(f, xs[1..]);
      match f(xs[0]) {
        case Err(_) =>
        case Ok(y) =>
          match MapAll(f, xs[1..]) {
            case Err(_) =>
            case Ok(v) => assert ([y] + v)[1..] == v;
          }
      }
    }
  }

  /** `pd.concat(map(f, xs))` over a non-empty `xs` is ConcatMap; over an
      empty one it raises ValueError. */
  lemma ConcatAllMeaning<T, U>(f: T -> Result<seq<U>>, xs: seq<T>)
    ensures xs == [] ==> ConcatAll(f, xs) == Err(ValueError)
    ensures xs != [] ==> ConcatAll(f, xs) == ConcatMap(f, xs)
  {
    MapAllFlatten(f, xs);
  }

  /** Concatenating per-piece results that were each computed by ConcatMap
      is ConcatMap over the pieces put together. */
  lemma {:induction false} ConcatMapPieces<T, U>(f: T -> Result<seq<U>>, parts: seq<seq<T>>, pieces: seq<Result<seq<U>>>)
    requires |pieces| == |parts|
    requires forall k :: 0 <= k < |parts| ==> pieces[k] == ConcatMap(f, parts[k])
    ensures ConcatMap(Get, pieces) == ConcatMap(f, Flatten(parts))
  {
    if parts != [] {
      assert forall k :: 0 <= k < |parts[1..]| ==> pieces[1..][k] == ConcatMap(f, parts[1..][k]) by {
        forall k | 0 <= k < |parts[1..]| ensures pieces[1..][k] == ConcatMap(f, parts[1..][k]) {
          assert pieces[1..][k] == pieces[k + 1] && parts[1..][k] == parts[k + 1];
        }
      }
      ConcatMapPieces(f, parts[1..], pieces[1..]);
      ConcatMapAppend(f, parts[0], Flatten(parts[1..]));
      assert pieces[0] == ConcatMap(f, parts[0]);
    }
  }

  // ---------------------------------------------------------------------
  // np.array_split

  /** Where section `i` of `n` starts when `q` = L div n and `rem` = L mod n:
      the first `rem` sections hold q + 1 elements, the others q. */
  function SectionStart(q: nat, rem: nat, i: nat): nat {
    i * q + (if i < rem then i else rem)
  }

  function Sections<T>(xs: seq<T>, q: nat, rem: nat, n: nat, i: nat): (parts: seq<seq<T>>)
    requires i <= n && SectionStart(q, rem, n) == |xs|
    ensures |parts| == n - i
    ensures forall k :: 0 <= k < |parts| ==> |parts[k]| == q + (if i + k < rem then 1 else 0)
    ensures Flatten(parts) == xs[SectionStart(q, rem, i)..]
    decreases n - i
  {
    if i == n then []
    else
      SectionsMonotone(q, rem, i, n);
      var rest := Sections(xs, q, rem, n, i + 1);
      var a, b := SectionStart(q, rem, i), SectionStart(q, rem, i + 1);
      var parts := [xs[a..b]] + rest;
      assert parts[1..] == rest;
      assert xs[a..b] + xs[b..] == xs[a..];
      assert forall k :: 1 <= k < |parts| ==> parts[k] == rest[k - 1];
      parts
  }

  lemma SectionsMonotone(q: nat, rem: nat, i: nat, n: nat)
    requires i < n
    ensures SectionStart(q, rem, i + 1) == SectionStart(q, rem, i) + q + (if i < rem then 1 else 0)
    ensures SectionStart(q, rem, i + 1) <= SectionStart(q, rem, n)
  {
    var k := n - (i + 1);
    assert n * q == (i + 1) * q + k * q;
  }

  lemma SectionEnd(l: nat, n: nat)
    requires n > 0
    ensures SectionStart(l / n, l % n, n) == l
  {
  }

  /** `np.array_split(xs, n)`: `n` consecutive sections, the first `L mod n`
      of size `L div n + 1` and the rest of size `L div n`, whose
      concatenation is `xs`; a ValueError when `n` is not positive. */
  function ArraySplit<T>(xs: seq<T>, n: int): (r: Result<seq<seq<T>>>)
    ensures n <= 0 ==> r == Err(ValueError)
    ensures n > 0 ==> r.Ok? && |r.value| == n && Flatten(r.value) == xs
    ensures n > 0 ==> forall i :: 0 <= i < n ==>
      |r.value[i]| == |xs| / n + (if i < |xs| % n then 1 else 0)
  {
    if n <= 0 then Err(ValueError)
    else
      SectionEnd(|xs|, n);
      Ok(Sections(xs, |xs| / n, |xs| % n, n, 0))
  }

  /** Sections of one array_split differ in length by at most one. */
  lemma ArraySplitBalanced<T>(xs: seq<T>, n: int, i: nat, j: nat)
    requires n > 0 && i < n && j < n
    ensures var parts := ArraySplit(xs, n).value;
      |parts[i]| <= |parts[j]| + 1
  {
  }
}
