/**
 * `Variables` (src/DataStructures/Variables.hpp): one contiguous buffer that
 * holds every independent tensor component of a list of tags for a number
 * of grid points. Component `k` occupies the `npts` entries that start at
 * offset `k * npts`. A `Variables` either owns its buffer or is a
 * non-owning view into a buffer owned elsewhere; a view shares the array of
 * its target here, so writes through one are seen through the other.
 */
module DataStructures {
  import opened Wrappers
  import opened Parallel

  // ---------------------------------------------------------------------
  // Tags and their tensors
  // ---------------------------------------------------------------------

  function Sum(xs: seq<nat>): nat {
    if |xs| == 0 then 0 else Sum(xs[..|xs| - 1]) + xs[|xs| - 1]
  }

  /** The tags of a `Variables` and, for each, the number of independent
      components of its tensor (`Tag::type::size()`). */
  datatype Layout = Layout(tags: seq<TagId>, tensorSizes: seq<nat>) {
    /** At least one tag, no tag twice, and every tensor has a component. */
    predicate WellFormed() {
      |tags| > 0 && |tags| == |tensorSizes| && NoDuplicates(tags) &&
      forall i :: 0 <= i < |tensorSizes| ==> tensorSizes[i] > 0
    }

    /** `number_of_independent_components`. */
    function Components(): nat {
      Sum(tensorSizes)
    }

    /** The number of components of the tags before tag `i`. */
    function Offset(i: nat): nat
      requires i <= |tensorSizes|
    {
      Sum(tensorSizes[..i])
    }

    /** The tags `first` to `first + count - 1`, as a list of their own. */
    function Slice(first: nat, count: nat): (sub: Layout)
      requires WellFormed() && 0 < count && first + count <= |tags|
      ensures |sub.tags| == |sub.tensorSizes| == count
      ensures sub.WellFormed()
      ensures sub.Components() == Offset(first + count) - Offset(first)
      ensures forall i :: 0 <= i < count ==> sub.tags[i] == tags[first + i]
      ensures forall i :: 0 <= i <= count ==> sub.Offset(i) == Offset(first + i) - Offset(first)
    {
      var sub := Layout(tags[first..first + count], tensorSizes[first..first + count]);
      forall i | 0 <= i <= count
        ensures sub.Offset(i) == Offset(first + i) - Offset(first)
      {
        SumOfSlice(tensorSizes, first, first + i);
        assert sub.tensorSizes[..i] == tensorSizes[first..first + i];
      }
      assert sub.tensorSizes[..count] == sub.tensorSizes;
      assert sub.Components() == sub.Offset(count);
      sub
    }
  }

  lemma {:induction false} SumOfPrefixStep(xs: seq<nat>, i: nat)
    requires i < |xs|
    ensures Sum(xs[..i + 1]) == Sum(xs[..i]) + xs[i]
  {
    assert xs[..i + 1][..i] == xs[..i];
  }

  lemma {:induction false} SumOfPrefixMonotone(xs: seq<nat>, i: nat, j: nat)
    requires i <= j <= |xs|
    ensures Sum(xs[..i]) <= Sum(xs[..j])
    decreases j - i
  {
    if i < j {
      SumOfPrefixStep(xs, j - 1);
      SumOfPrefixMonotone(xs, i, j - 1);
    }
  }

  /** The sum over `xs[lo..hi]` is the difference of two prefix sums. */
  lemma {:induction false} SumOfSlice(xs: seq<nat>, lo: nat, hi: nat)
    requires lo <= hi <= |xs|
    ensures Sum(xs[..hi]) >= Sum(xs[..lo])
    ensures Sum(xs[lo..hi]) == Sum(xs[..hi]) - Sum(xs[..lo])
    decreases hi - lo
  {
    if lo == hi {
      assert xs[lo..hi] == [];
    } else {
      SumOfSlice(xs, lo, hi - 1);
      SumOfPrefixStep(xs, hi - 1);
      assert xs[lo..hi][..hi - 1 - lo] == xs[lo..hi - 1];
    }
  }

  lemma OffsetBounds(layout: Layout, i: nat)
    requires i < |layout.tensorSizes|
    ensures layout.Offset(i + 1) == layout.Offset(i) + layout.tensorSizes[i]
    ensures layout.Offset(i + 1) <= layout.Components()
  {
    SumOfPrefixStep(layout.tensorSizes, i);
    SumOfPrefixMonotone(layout.tensorSizes, i + 1, |layout.tensorSizes|);
    assert layout.tensorSizes[..|layout.tensorSizes|] == layout.tensorSizes;
  }

  /** The component ranges of two different tags do not overlap. */
  lemma OffsetsOrdered(layout: Layout, i: nat, j: nat)
    requires i < j <= |layout.tensorSizes|
    ensures layout.Offset(i + 1) <= layout.Offset(j)
  {
    SumOfPrefixMonotone(layout.tensorSizes, i + 1, j);
  }

  lemma MulMonotone(n: nat, a: nat, b: nat)
    requires a <= b
    ensures n * a <= n * b
  {
  }

  lemma MulDivCancel(n: nat, k: nat)
    requires k > 0
    ensures (n * k) / k == n && (n * k) % k == 0
  {
    var q, r := (n * k) / k, (n * k) % k;
    assert n * k == q * k + r && 0 <= r < k;
    if q < n {
      assert (n - q) * k == r;
      MulMonotone(k, 1, n - q);
      assert false;
    } else if q > n {
      assert false;
    }
  }

  /** Where the block of the tags `first` to `first + count - 1` starts and
      ends, for `n` grid points per component. */
  lemma SubsetBounds(layout: Layout, n: nat, first: nat, count: nat)
    requires layout.WellFormed() && 0 < count && first + count <= |layout.tags|
    ensures layout.Offset(first) <= layout.Offset(first + count) <= layout.Components()
    ensures n * layout.Offset(first) <= n * layout.Offset(first + count) <= n * layout.Components()
    ensures n * layout.Slice(first, count).Components() == n * layout.Offset(first + count) - n * layout.Offset(first)
    ensures (n * layout.Slice(first, count).Components()) % layout.Slice(first, count).Components() == 0
    ensures (n * layout.Slice(first, count).Components()) / layout.Slice(first, count).Components() == n
  {
    var a, b := layout.Offset(first), layout.Offset(first + count);
    var k := layout.Slice(first, count).Components();
    OffsetBounds(layout, first + count - 1);
    OffsetBounds(layout, first);
    SumOfPrefixMonotone(layout.tensorSizes, first + 1, first + count);
    assert a < b && k == b - a;
    MulMonotone(n, b, layout.Components());
    MulMonotone(n, a, b);
    MulDistributes(n, a, k);
    MulDivCancel(n, k);
  }

  /** A slice of a slice is a slice of the whole. */
  lemma SliceOfSlice<T>(a: seq<T>, i: nat, j: nat, lo: nat, hi: nat)
    requires i <= j <= |a| && lo <= hi <= j - i
    ensures a[i..j][lo..hi] == a[i + lo..i + hi]
  {
    var x, y := a[i..j][lo..hi], a[i + lo..i + hi];
    assert |x| == |y|;
    forall k | 0 <= k < |x|
      ensures x[k] == y[k]
    {
      assert x[k] == a[i..j][lo + k];
    }
  }

  /** Two sequences that agree at every position of a range have equal
      slices over it. */
  lemma SlicesAgree<T>(a: seq<T>, b: seq<T>, lo: nat, hi: nat)
    requires lo <= hi <= |a| == |b|
    requires forall p :: lo <= p < hi ==> a[p] == b[p]
    ensures a[lo..hi] == b[lo..hi]
  {
  }

  lemma MulDistributes(n: nat, a: nat, b: nat)
    ensures n * (a + b) == n * a + n * b
  {
  }

  /** The position of `x` in `xs`. */
  function IndexOf(xs: seq<TagId>, x: TagId): (i: nat)
    requires x in xs
    ensures i < |xs| && xs[i] == x
    ensures forall k :: 0 <= k < i ==> xs[k] != x
  {
    if xs[0] == x then 0 else 1 + IndexOf(xs[1..], x)
  }

  // ---------------------------------------------------------------------
  // The bookkeeping of `initialize`, on values
  // ---------------------------------------------------------------------

  /** The bookkeeping fields of a `Variables`: `owning_`,
      `number_of_grid_points_`, `size_`, and the length of the view
      `variable_data_`. */
  datatype Header = Header(owning: bool, npts: nat, size: nat, viewLength: nat)

  datatype VariablesError = ResizeOfNonOwning | ViewSizeMismatch

  /** The size of the view agrees with the size, and the size is the
      number of grid points times the number of components. */
  predicate Consistent(h: Header, ncomp: nat) {
    h.size == h.npts * ncomp && h.viewLength == h.size
  }

  /** `initialize(n)` as the source writes it: a resize to zero points sets
      the size to zero and leaves the view at its old length. */
  function InitializeAsWritten(h: Header, n: nat, ncomp: nat): (r: Result<Header, VariablesError>)
    ensures r.Err? <==> !h.owning && h.npts != n
    ensures r.Ok? ==> r.value.npts == n && r.value.owning == h.owning
    ensures r.Ok? && h.npts != n && n * ncomp == 0 ==> r.value.size == 0 && r.value.viewLength == h.viewLength
  {
    var h := if h.npts == 0 then h.(size := 0) else h;
    if h.npts == n then Ok(h)
    else if !h.owning then Err(ResizeOfNonOwning)
    else if n * ncomp > 0 then Ok(Header(true, n, n * ncomp, n * ncomp))
    else Ok(h.(npts := n, size := 0))
  }

  /** `initialize(n)` with the view emptied on a resize to zero points, so
      that the result is the state `Variables(n)` constructs. */
  function InitializeHeader(h: Header, n: nat, ncomp: nat): (r: Result<Header, VariablesError>)
    ensures r.Err? <==> !h.owning && h.npts != n
    ensures r.Ok? ==> r.value.npts == n && r.value.owning == h.owning
    ensures r.Ok? && h.npts != n ==> Consistent(r.value, ncomp)
  {
    var h := if h.npts == 0 then h.(size := 0) else h;
    if h.npts == n then Ok(h)
    else if !h.owning then Err(ResizeOfNonOwning)
    else Ok(Header(true, n, n * ncomp, n * ncomp))
  }

  /** `initialize(n)` fails exactly on a non-owning object whose number of
      grid points differs; otherwise it leaves `n` points, the matching size
      and a consistent view, and calling it again changes nothing. */
  lemma InitializeHeaderContract(h: Header, n: nat, ncomp: nat)
    requires Consistent(h, ncomp)
    ensures InitializeHeader(h, n, ncomp).Err? <==> !h.owning && h.npts != n
    ensures InitializeHeader(h, n, ncomp).Err? ==> InitializeHeader(h, n, ncomp).error == ResizeOfNonOwning
    ensures InitializeHeader(h, n, ncomp).Ok? ==>
      var r := InitializeHeader(h, n, ncomp).value;
      r.npts == n && r.size == n * ncomp && r.owning == h.owning && Consistent(r, ncomp) &&
      InitializeHeader(r, n, ncomp) == Ok(r)
  {
  }

  /** The copy assignment's bookkeeping: `initialize(rhs.npts)`, then the
      view assignment, which needs equal view lengths. */
  function CopyAssignAsWritten(lhs: Header, rhs: Header, ncomp: nat): (r: Result<Header, VariablesError>)
    ensures !lhs.owning && lhs.npts != rhs.npts ==> r == Err(ResizeOfNonOwning)
    ensures r.Ok? ==> r.value.npts == rhs.npts && r.value.owning == lhs.owning && r.value.viewLength == rhs.viewLength
  {
    match InitializeAsWritten(lhs, rhs.npts, ncomp)
    case Err(e) => Err(e)
    case Ok(h) => if h.viewLength != rhs.viewLength then Err(ViewSizeMismatch) else Ok(h)
  }

  function CopyAssignHeader(lhs: Header, rhs: Header, ncomp: nat): (r: Result<Header, VariablesError>)
    ensures !lhs.owning && lhs.npts != rhs.npts ==> r == Err(ResizeOfNonOwning)
    ensures r.Ok? ==> r.value.npts == rhs.npts && r.value.owning == lhs.owning && r.value.viewLength == rhs.viewLength
  {
    match InitializeHeader(lhs, rhs.npts, ncomp)
    case Err(e) => Err(e)
    case Ok(h) => if h.viewLength != rhs.viewLength then Err(ViewSizeMismatch) else Ok(h)
  }

  /** As written, resizing an owning object with three points of two
      components to zero points leaves a six-entry view behind a size of
      zero. Copy-assigning an empty object to the resized object then fails
      on the view's size, and so does copy-assigning it to the original
      object. With the view emptied, all of these succeed consistently. */
  lemma InitializeToZeroLeavesStaleView()
    ensures Consistent(Header(true, 3, 6, 6), 2)
    ensures InitializeAsWritten(Header(true, 3, 6, 6), 0, 2) == Ok(Header(true, 0, 0, 6))
    ensures !Consistent(Header(true, 0, 0, 6), 2)
    ensures CopyAssignAsWritten(Header(true, 0, 0, 6), Header(true, 0, 0, 0), 2) == Err(ViewSizeMismatch)
    ensures CopyAssignAsWritten(Header(true, 3, 6, 6), Header(true, 0, 0, 0), 2) == Err(ViewSizeMismatch)
    ensures InitializeHeader(Header(true, 3, 6, 6), 0, 2) == Ok(Header(true, 0, 0, 0))
    ensures CopyAssignHeader(Header(true, 3, 6, 6), Header(true, 0, 0, 0), 2) == Ok(Header(true, 0, 0, 0))
  {
  }

  /** With consistent headers, the corrected copy assignment fails only
      when a non-owning target would have to be resized. */
  lemma CopyAssignHeaderFailsOnlyOnResizeOfView(lhs: Header, rhs: Header, ncomp: nat)
    requires Consistent(lhs, ncomp) && Consistent(rhs, ncomp)
    ensures CopyAssignHeader(lhs, rhs, ncomp).Err? <==> !lhs.owning && lhs.npts != rhs.npts
    ensures CopyAssignHeader(lhs, rhs, ncomp).Ok? ==> CopyAssignHeader(lhs, rhs, ncomp).value.npts == rhs.npts
  {
  }

  // ---------------------------------------------------------------------
  // The class
  // ---------------------------------------------------------------------

  /** A raw pointer into a buffer, or `nullptr`. */
  datatype Pointer<T> = Null | Into(buffer: array<T>, offset: nat)

  /** A serialised `Variables`: the number of grid points followed by the
      entries. */
  datatype Packed<T> = Packed(npts: nat, entries: seq<T>)

  class Variables<T(0)> {
    const layout: Layout
    /** `number_of_independent_components`. */
    const ncomp: nat
    /** The array that `variable_data_` points into, and where it starts. */
    var data: array<T>
    var start: nat
    /** `size_` and `number_of_grid_points_`. */
    var size: nat
    var npts: nat
    /** `owning_`. */
    var owning: bool
    /** Whether `variable_data_impl_dynamic_` holds a heap buffer. */
    var dynamic: bool
    /** Where the tensors of `reference_variable_data_` point: the offset in
        `data` of each independent component, in tag order. */
    var refs: seq<nat>

    /** Everything but the tensors' references. */
    ghost predicate Shaped()
      reads this
    {
      layout.WellFormed() && ncomp == layout.Components() && ncomp > 0 &&
      size == npts * ncomp &&
      start + size <= data.Length &&
      (owning ==> start == 0 && data.Length == size) &&
      (owning ==> (dynamic <==> npts > 1)) &&
      (!owning ==> !dynamic)
    }

    /** Component `k` is referenced at offset `k * npts` of the view. */
    ghost predicate RefsLaidOut()
      reads this
    {
      |refs| == ncomp && forall k :: 0 <= k < ncomp ==> refs[k] == start + npts * k
    }

    ghost predicate Valid()
      reads this
    {
      Shaped() && (size > 0 ==> RefsLaidOut())
    }

    function State(): Header
      reads this
    {
      Header(owning, npts, size, size)
    }

    /** The entries of the view. */
    ghost function Contents(): seq<T>
      reads this, data
      requires Valid()
    {
      data[start..start + size]
    }

    /** Where entry `s` of independent component `c` sits in `data`. */
    ghost function Index(c: nat, s: nat): nat
      reads this
    {
      start + npts * c + s
    }

    /** Entry `s` of independent component `c`. */
    ghost function Entry(c: nat, s: nat): T
      reads this, data
      requires Valid() && c < ncomp && s < npts
    {
      EntryInRange(c, s);
      data[Index(c, s)]
    }

    /** The entries of the tensor of tag `i`. */
    ghost function TagSlice(i: nat): seq<T>
      reads this, data
      requires Valid() && i < |layout.tags|
    {
      TagBounds(i);
      data[TagStart(i)..TagStart(i + 1)]
    }

    /** Where the entries of the tensor of tag `i` start in `data`. */
    function TagStart(i: nat): nat
      reads this
      requires i <= |layout.tensorSizes|
    {
      start + npts * layout.Offset(i)
    }

    lemma TagBounds(i: nat)
      requires Valid() && i < |layout.tags|
      ensures start <= TagStart(i) <= TagStart(i + 1) <= start + size
      ensures TagStart(i + 1) - TagStart(i) == npts * layout.tensorSizes[i]
    {
      OffsetBounds(layout, i);
      MulMonotone(npts, layout.Offset(i + 1), ncomp);
      MulDistributes(npts, layout.Offset(i), layout.tensorSizes[i]);
    }

    /** The tensor of an earlier tag ends before that of a later one
        starts. */
    lemma TagsOrdered(i: nat, j: nat)
      requires Valid() && i < j < |layout.tags|
      ensures TagStart(i + 1) <= TagStart(j)
    {
      OffsetsOrdered(layout, i, j);
      MulMonotone(npts, layout.Offset(i + 1), layout.Offset(j));
    }

    lemma EntryInRange(c: nat, s: nat)
      requires Shaped() && c < ncomp && s < npts
      ensures npts * c + s < size
    {
      MulMonotone(npts, c + 1, ncomp);
    }

    /** Every entry of a component comes before every entry of a later one. */
    lemma IndexOrdered(c: nat, s: nat, c2: nat, s2: nat)
      requires c < c2 && s < npts
      ensures Index(c, s) < Index(c2, s2)
    {
      MulMonotone(npts, c + 1, c2);
    }

    /** `Variables()`: owning, with no grid points and no tensor
        references. */
    constructor Empty(layout: Layout)
      requires layout.WellFormed()
      ensures Valid() && this.layout == layout
      ensures owning && size == 0 && npts == 0 && Contents() == []
      ensures fresh(data)
    {
      this.layout := layout;
      ncomp := layout.Components();
      data := new T[0];
      start := 0;
      size := 0;
      npts := 0;
      owning := true;
      dynamic := false;
      refs := [];
      new;
      assert layout.tensorSizes[..|layout.tensorSizes|] == layout.tensorSizes;
      assert layout.Offset(|layout.tensorSizes|) == layout.Components();
      OffsetBounds(layout, 0);
      SumOfPrefixMonotone(layout.tensorSizes, 1, |layout.tensorSizes|);
    }

    /** `add_reference_variable_data`: point the tensors of every tag, in
        order, at consecutive blocks of `npts` entries. Nothing happens for
        an empty object. */
    method AddReferenceVariableData()
      modifies this
      requires Shaped()
      ensures Valid()
      ensures data == old(data) && start == old(start) && size == old(size) && npts == old(npts)
      ensures owning == old(owning) && dynamic == old(dynamic)
      ensures size == 0 ==> refs == old(refs)
    {
      if size == 0 {
        return;
      }
      var offsets: seq<nat> := [];
      var variableOffset := 0;
      var i := 0;
      while i < |layout.tags|
        invariant 0 <= i <= |layout.tags|
        invariant unchanged(this)
        invariant variableOffset == layout.Offset(i) == |offsets|
        invariant forall k :: 0 <= k < |offsets| ==> offsets[k] == start + npts * k
      {
        var c := 0;
        while c < layout.tensorSizes[i]
          invariant 0 <= c <= layout.tensorSizes[i]
          invariant unchanged(this)
          invariant variableOffset == layout.Offset(i) + c == |offsets|
          invariant forall k :: 0 <= k < |offsets| ==> offsets[k] == start + npts * k
        {
          offsets := offsets + [start + npts * variableOffset];
          variableOffset := variableOffset + 1;
          c := c + 1;
        }
        OffsetBounds(layout, i);
        i := i + 1;
      }
      assert layout.tensorSizes[..|layout.tags|] == layout.tensorSizes;
      refs := offsets;
    }

    /**
     * `initialize(n)`: nothing changes when the number of grid points is
     * already `n`; a non-owning object cannot be resized; otherwise a new
     * buffer of `n * ncomp` entries is allocated (a resize to zero points
     * leaves an empty buffer) and the tensors are re-pointed into it.
     */
    method Initialize(n: nat) returns (ok: bool)
      modifies this
      requires Valid()
      ensures Valid()
      ensures ok == InitializeHeader(old(State()), n, ncomp).Ok?
      ensures ok ==> State() == InitializeHeader(old(State()), n, ncomp).value
      ensures ok ==> owning == old(owning)
      ensures !ok || old(npts) == n ==> unchanged(this)
      ensures ok && old(npts) != n ==> fresh(data) && npts == n && size == n * ncomp
    {
      if npts == 0 {
        dynamic := false;
        size := 0;
        npts := 0;
      }
      if npts == n {
        return true;
      }
      if !owning {
        return false;
      }
      npts := n;
      size := n * ncomp;
      start := 0;
      if size > 0 {
        dynamic := npts != 1;
        data := new T[size];
        AddReferenceVariableData();
      } else {
        dynamic := false;
        data := new T[0];
      }
      return true;
    }

    /** `Variables(n)`. */
    constructor WithPoints(layout: Layout, n: nat)
      requires layout.WellFormed()
      ensures Valid() && this.layout == layout
      ensures owning && npts == n && size == n * ncomp
      ensures fresh(data)
    {
      this.layout := layout;
      ncomp := layout.Components();
      data := new T[0];
      start := 0;
      size := 0;
      npts := 0;
      owning := true;
      dynamic := false;
      refs := [];
      new;
      EmptyIsValid();
      var ok := Initialize(n);
    }

    lemma EmptyIsValid()
      requires layout.WellFormed() && ncomp == layout.Components()
      requires size == 0 && npts == 0 && start == 0 && data.Length == 0 && owning && !dynamic
      ensures Valid()
    {
      OffsetBounds(layout, 0);
      assert layout.tensorSizes[..|layout.tensorSizes|] == layout.tensorSizes;
      SumOfPrefixMonotone(layout.tensorSizes, 1, |layout.tensorSizes|);
    }

    /** `initialize(n, value)`: `initialize(n)`, then every entry of the
        view set to `value`. */
    method InitializeWith(n: nat, value: T) returns (ok: bool)
      modifies this, data
      requires Valid()
      ensures Valid()
      ensures ok == InitializeHeader(old(State()), n, ncomp).Ok?
      ensures ok ==> npts == n && size == n * ncomp && owning == old(owning)
      ensures ok ==> forall p :: 0 <= p < size ==> Contents()[p] == value
      ensures ok && old(npts) == n ==>
                data == old(data) &&
                forall p :: 0 <= p < data.Length && !(start <= p < start + size) ==> data[p] == old(data[p])
      ensures ok && old(npts) != n ==> fresh(data)
      ensures !ok ==> unchanged(this) && unchanged(data)
    {
      ok := Initialize(n);
      if ok {
        Fill(value);
      }
    }

    /** Sets every entry of the view to `value`. */
    method Fill(value: T)
      modifies data
      requires Valid()
      ensures forall p :: 0 <= p < size ==> Contents()[p] == value
      ensures forall p :: 0 <= p < data.Length && !(start <= p < start + size) ==> data[p] == old(data[p])
    {
      var i := 0;
      while i < size
        invariant 0 <= i <= size
        invariant forall p :: start <= p < start + i ==> data[p] == value
        invariant forall p :: 0 <= p < data.Length && !(start <= p < start + size) ==> data[p] == old(data[p])
      {
        data[start + i] := value;
        i := i + 1;
      }
    }

    /** `Variables(n, value)`. */
    constructor Filled(layout: Layout, n: nat, value: T)
      requires layout.WellFormed()
      ensures Valid() && this.layout == layout
      ensures owning && npts == n && size == n * ncomp
      ensures forall p :: 0 <= p < size ==> Contents()[p] == value
      ensures fresh(data)
    {
      this.layout := layout;
      ncomp := layout.Components();
      data := new T[0];
      start := 0;
      size := 0;
      npts := 0;
      owning := true;
      dynamic := false;
      refs := [];
      new;
      EmptyIsValid();
      var ok := InitializeWith(n, value);
    }

    /**
     * `set_data_ref(start, size)`: become a non-owning view. `nullptr`
     * leaves an empty view; otherwise the size must be a multiple of the
     * number of components, and the number of grid points is the quotient.
     */
    method SetDataRef(p: Pointer<T>, sz: nat)
      modifies this
      requires Valid()
      requires p.Into? ==> p.offset + sz <= p.buffer.Length && sz % ncomp == 0
      ensures Valid() && !owning && !dynamic
      ensures p.Null? ==> size == 0 && npts == 0 && Contents() == []
      ensures p.Into? ==> data == p.buffer && start == p.offset && size == sz && npts == sz / ncomp
    {
      dynamic := false;
      match p {
        case Null =>
          data := new T[0];
          start := 0;
          size := 0;
          npts := 0;
        case Into(buffer, offset) =>
          size := sz;
          data := buffer;
          start := offset;
          npts := sz / ncomp;
      }
      owning := false;
      AddReferenceVariableData();
    }

    /** `set_data_ref(rhs)`: a non-owning view of all of `rhs`'s entries. */
    method SetDataRefTo(rhs: Variables<T>)
      modifies this
      requires Valid() && rhs.Valid() && rhs.ncomp == ncomp
      ensures Valid() && !owning
      ensures data == old(rhs.data) && start == old(rhs.start)
      ensures size == old(rhs.size) && npts == old(rhs.npts)
    {
      var sz := rhs.size;
      MulDivCancel(rhs.npts, ncomp);
      SetDataRef(Into(rhs.data, rhs.start), sz);
    }

    /** `Variables(start, size)`: a non-owning view. */
    constructor View(layout: Layout, p: Pointer<T>, sz: nat)
      requires layout.WellFormed()
      requires p.Into? ==> p.offset + sz <= p.buffer.Length && sz % layout.Components() == 0
      ensures Valid() && this.layout == layout && !owning
      ensures p.Null? ==> size == 0 && npts == 0
      ensures p.Into? ==> data == p.buffer && start == p.offset && size == sz && npts == sz / ncomp
    {
      this.layout := layout;
      ncomp := layout.Components();
      data := new T[0];
      start := 0;
      size := 0;
      npts := 0;
      owning := true;
      dynamic := false;
      refs := [];
      new;
      EmptyIsValid();
      SetDataRef(p, sz);
    }

    /** The moved-from state that the move operations leave behind:
        owning, with no grid points and no entries. */
    method LeaveEmpty()
      modifies this
      requires Valid()
      ensures Valid() && owning && !dynamic && size == 0 && npts == 0 && Contents() == []
      ensures fresh(data) && refs == old(refs)
    {
      data := new T[0];
      start := 0;
      size := 0;
      npts := 0;
      owning := true;
      dynamic := false;
      EmptyIsValid();
    }

    /**
     * Copy assignment (also from a `Variables` whose tags carry other
     * prefixes but the same tensors): assigning an object to itself changes
     * nothing; otherwise `initialize(rhs.npts)`, then the entries of `rhs`
     * are copied into the view.
     */
    method CopyAssign(rhs: Variables<T>) returns (ok: bool)
      modifies this, data
      requires Valid() && rhs.Valid() && rhs.layout.tensorSizes == layout.tensorSizes
      ensures Valid()
      ensures ok == CopyAssignHeader(old(State()), old(rhs.State()), ncomp).Ok?
      ensures rhs == this ==> ok && unchanged(this) && unchanged(data)
      ensures ok ==> npts == old(rhs.npts) && size == old(rhs.size) && owning == old(owning)
      ensures ok ==> Contents() == old(rhs.Contents())
      ensures ok && old(npts) == old(rhs.npts) ==>
                data == old(data) && start == old(start) &&
                forall p :: 0 <= p < data.Length && !(start <= p < start + size) ==> data[p] == old(data[p])
      ensures ok && old(npts) != old(rhs.npts) ==> fresh(data)
      ensures !ok ==> unchanged(this) && unchanged(data)
    {
      if rhs == this {
        return true;
      }
      ok := Initialize(rhs.npts);
      if ok {
        CopyEntries(rhs);
      }
    }

    /** Overwrites the view with the entries of `rhs`, which has as many. */
    method CopyEntries(rhs: Variables<T>)
      modifies data
      requires Valid() && rhs.Valid() && size == rhs.size
      ensures Contents() == old(rhs.Contents())
      ensures forall p :: 0 <= p < data.Length && !(start <= p < start + size) ==> data[p] == old(data[p])
    {
      var from, offset := rhs.data, rhs.start;
      ghost var copied := from[offset..offset + size];
      forall i | 0 <= i < size {
        data[start + i] := from[offset + i];
      }
      assert forall i :: 0 <= i < size ==> Contents()[i] == copied[i];
    }

    /** The copy constructor (also from a `Variables` whose tags carry other
        prefixes but the same tensors): an owning object holding equal
        entries. */
    constructor Copy(layout: Layout, rhs: Variables<T>)
      requires layout.WellFormed() && rhs.Valid() && rhs.layout.tensorSizes == layout.tensorSizes
      ensures Valid() && this.layout == layout && owning && fresh(data)
      ensures npts == rhs.npts && size == rhs.size && Contents() == rhs.Contents()
    {
      this.layout := layout;
      ncomp := layout.Components();
      data := new T[0];
      start := 0;
      size := 0;
      npts := 0;
      owning := true;
      dynamic := false;
      refs := [];
      new;
      EmptyIsValid();
      var ok := CopyAssign(rhs);
    }

    /**
     * The move constructor (also from a `Variables` whose tags carry other
     * prefixes but the same tensors): the new object takes the buffer, the
     * size, the number of grid points and the ownership of `rhs`, and `rhs`
     * is left owning and empty.
     */
    constructor Move(layout: Layout, rhs: Variables<T>)
      modifies rhs
      requires layout.WellFormed() && rhs.Valid() && rhs.layout.tensorSizes == layout.tensorSizes
      ensures Valid() && this.layout == layout
      ensures data == old(rhs.data) && start == old(rhs.start) && size == old(rhs.size)
      ensures npts == old(rhs.npts) && owning == old(rhs.owning) && dynamic == old(rhs.dynamic)
      ensures Contents() == old(rhs.Contents())
      ensures rhs.Valid() && rhs.owning && rhs.size == 0 && rhs.npts == 0 && fresh(rhs.data)
    {
      this.layout := layout;
      ncomp := layout.Components();
      data := rhs.data;
      start := rhs.start;
      size := rhs.size;
      npts := rhs.npts;
      owning := rhs.owning;
      dynamic := rhs.dynamic;
      refs := [];
      new;
      rhs.LeaveEmpty();
      AddReferenceVariableData();
    }

    /** Move assignment: as the move constructor; moving an object into
        itself changes nothing. */
    method MoveAssign(rhs: Variables<T>)
      modifies this, rhs
      requires Valid() && rhs.Valid() && rhs.layout.tensorSizes == layout.tensorSizes
      ensures Valid()
      ensures rhs == this ==> unchanged(this)
      ensures rhs != this ==>
                data == old(rhs.data) && start == old(rhs.start) && size == old(rhs.size) &&
                npts == old(rhs.npts) && owning == old(rhs.owning) && dynamic == old(rhs.dynamic) &&
                Contents() == old(rhs.Contents())
      ensures rhs != this ==> rhs.Valid() && rhs.owning && rhs.size == 0 && rhs.npts == 0 && fresh(rhs.data)
    {
      if rhs == this {
        return;
      }
      data := rhs.data;
      start := rhs.start;
      size := rhs.size;
      npts := rhs.npts;
      owning := rhs.owning;
      dynamic := rhs.dynamic;
      rhs.LeaveEmpty();
      AddReferenceVariableData();
    }

    /** `pup` when packing, which needs an owning object: the number of
        grid points, then the entries. */
    function Pack(): (p: Packed<T>)
      reads this, data
      requires Valid() && owning
      ensures p.npts == npts && |p.entries| == p.npts * ncomp
      ensures p.entries == Contents()
    {
      Packed(npts, data[start..start + size])
    }

    /** `pup` when unpacking, which needs an owning object:
        `initialize(npts)`, then the entries read back. */
    method Unpack(p: Packed<T>)
      modifies this, data
      requires Valid() && owning && |p.entries| == p.npts * ncomp
      ensures Valid() && owning && npts == p.npts && size == |p.entries| && Contents() == p.entries
      ensures old(npts) != p.npts ==> fresh(data)
      ensures old(npts) == p.npts ==> data == old(data)
    {
      var ok := Initialize(p.npts);
      forall i | 0 <= i < size {
        data[start + i] := p.entries[i];
      }
      assert Contents() == p.entries;
    }

    /**
     * `reference_subset` of the `count` consecutive tags from tag `first`:
     * a non-owning view that starts `npts` times the number of preceding
     * components into the buffer and spans `npts` times the number of the
     * subset's components, so that its components are this object's.
     */
    method ReferenceSubset(first: nat, count: nat) returns (sub: Variables<T>)
      requires Valid() && 0 < count && first + count <= |layout.tags|
      ensures fresh(sub) && sub.Valid() && !sub.owning
      ensures sub.layout == layout.Slice(first, count) && sub.npts == npts
      ensures sub.data == data && sub.start == start + npts * layout.Offset(first)
      ensures sub.size == npts * sub.ncomp && layout.Offset(first) + sub.ncomp <= ncomp
      ensures npts * layout.Offset(first) <= npts * layout.Offset(first + count) <= size
      ensures sub.Contents() == Contents()[npts * layout.Offset(first)..npts * layout.Offset(first + count)]
      ensures forall c, s :: 0 <= c < sub.ncomp && 0 <= s < npts ==>
                sub.Entry(c, s) == Entry(layout.Offset(first) + c, s)
    {
      var slice := layout.Slice(first, count);
      var k := slice.Components();
      SubsetBounds(layout, npts, first, count);
      sub := new Variables<T>.View(slice, Into(data, start + npts * layout.Offset(first)), npts * k);
      SubsetView(sub, first, count);
    }

    /** The facts `ReferenceSubset` promises about a view laid out as the
        tags `first` to `first + count - 1` of this object. */
    lemma SubsetView(sub: Variables<T>, first: nat, count: nat)
      requires Valid() && 0 < count && first + count <= |layout.tags|
      requires sub.Valid() && sub.layout == layout.Slice(first, count) && sub.npts == npts
      requires sub.data == data && sub.start == start + npts * layout.Offset(first)
      requires sub.size == npts * sub.ncomp
      ensures layout.Offset(first) + sub.ncomp <= ncomp
      ensures npts * layout.Offset(first) <= npts * layout.Offset(first + count) <= size
      ensures sub.Contents() == Contents()[npts * layout.Offset(first)..npts * layout.Offset(first + count)]
      ensures forall c, s :: 0 <= c < sub.ncomp && 0 <= s < npts ==>
                sub.Entry(c, s) == Entry(layout.Offset(first) + c, s)
    {
      SubsetBounds(layout, npts, first, count);
      ViewContents(sub, npts * layout.Offset(first), npts * layout.Offset(first + count));
      ViewEntries(sub, layout.Offset(first));
    }

    /** A view `sub` that starts `lo` entries into this object's view and
        ends `hi` entries into it holds exactly those entries. */
    lemma ViewContents(sub: Variables<T>, lo: nat, hi: nat)
      requires Valid() && sub.Valid() && sub.data == data
      requires lo <= hi <= size && sub.start == start + lo && sub.size == hi - lo
      ensures sub.Contents() == Contents()[lo..hi]
    {
      SliceOfSlice(data[..], start, start + size, lo, hi);
    }

    /** Component `c` of a view `sub` that starts at component `first` of
        this object, with as many grid points, is component `first + c` of
        this object. */
    lemma ViewEntries(sub: Variables<T>, first: nat)
      requires Valid() && sub.Valid() && sub.data == data && sub.npts == npts
      requires sub.start == start + npts * first && first + sub.ncomp <= ncomp
      ensures forall c, s :: 0 <= c < sub.ncomp && 0 <= s < npts ==> sub.Entry(c, s) == Entry(first + c, s)
    {
      forall c, s | 0 <= c < sub.ncomp && 0 <= s < npts
        ensures sub.Entry(c, s) == Entry(first + c, s)
      {
        MulDistributes(npts, first, c);
        assert sub.Index(c, s) == Index(first + c, s);
      }
    }

    /** `reference_with_different_prefixes`: a non-owning view of the
        whole buffer under tags that hold the same tensors. */
    method ReferenceWithDifferentPrefixes(wrapped: Layout) returns (v: Variables<T>)
      requires Valid() && wrapped.WellFormed() && wrapped.tensorSizes == layout.tensorSizes
      ensures fresh(v) && v.Valid() && !v.owning && v.layout == wrapped
      ensures v.data == data && v.start == start && v.size == size && v.npts == npts
      ensures v.Contents() == Contents()
      ensures forall i :: 0 <= i < |layout.tags| ==> v.TagSlice(i) == TagSlice(i)
    {
      MulDivCancel(npts, ncomp);
      v := new Variables<T>.View(wrapped, Into(data, start), size);
      SameTensorsAs(v);
    }

    /** A view of the same entries under tags with the same tensor sizes
        holds the same tensors, tag by tag. */
    lemma SameTensorsAs(v: Variables<T>)
      requires Valid() && v.Valid()
      requires v.data == data && v.start == start && v.size == size && v.npts == npts
      requires v.layout.tensorSizes == layout.tensorSizes && |v.layout.tags| == |layout.tags|
      ensures v.Contents() == Contents()
      ensures forall i :: 0 <= i < |layout.tags| ==> v.TagSlice(i) == TagSlice(i)
    {
      forall i | 0 <= i < |layout.tags|
        ensures v.TagSlice(i) == TagSlice(i)
      {
        assert v.TagStart(i) == TagStart(i);
        assert v.TagStart(i + 1) == TagStart(i + 1);
      }
    }

    /** Some tag of this object is also a tag of `src`. */
    ghost predicate SharesTagWith(src: Variables<T>) {
      exists i :: 0 <= i < |layout.tags| && layout.tags[i] in src.layout.tags
    }

    /** A tag that both objects have holds the same tensor in both. */
    ghost predicate TensorsAgree(src: Variables<T>) {
      forall i, j :: 0 <= i < |layout.tags| && 0 <= j < |src.layout.tags| && layout.tags[i] == src.layout.tags[j] ==>
        i < |layout.tensorSizes| && j < |src.layout.tensorSizes| && layout.tensorSizes[i] == src.layout.tensorSizes[j]
    }

    /** The tensor that `assign_subset(src)` copies into tag `i`: `src`'s
        tensor of the same tag, if it has one. */
    ghost function Incoming(src: Variables<T>, i: nat): Option<seq<T>>
      reads src, src.data
      requires src.Valid() && i < |layout.tags|
    {
      if layout.tags[i] in src.layout.tags then Some(src.TagSlice(IndexOf(src.layout.tags, layout.tags[i])))
      else None
    }

    /**
     * `assign_subset(src)`: the tensor of every tag that both objects have
     * is assigned from `src`, which needs equal numbers of grid points; the
     * other tensors, and everything outside the view, keep their entries.
     */
    method AssignSubset(src: Variables<T>)
      modifies data
      requires Valid() && src.Valid() && src.data != data
      requires TensorsAgree(src) && (SharesTagWith(src) ==> src.npts == npts)
      ensures forall i :: 0 <= i < |layout.tags| ==> TagSlice(i) == Incoming(src, i).GetOr(old(TagSlice(i)))
      ensures forall p :: 0 <= p < data.Length && !(start <= p < start + size) ==> data[p] == old(data[p])
    {
      var i := 0;
      while i < |layout.tags|
        invariant 0 <= i <= |layout.tags|
        invariant forall i' :: 0 <= i' < i ==> TagSlice(i') == Incoming(src, i').GetOr(old(TagSlice(i')))
        invariant forall p :: 0 <= p < data.Length && !(start <= p < TagStart(i)) ==> data[p] == old(data[p])
      {
        TagBounds(i);
        assert TagSlice(i) == old(TagSlice(i));
        AssignTag(src, i);
        i := i + 1;
      }
      assert layout.tensorSizes[..|layout.tensorSizes|] == layout.tensorSizes;
    }

    /** One step of `assign_subset`: the tensor of tag `i` is assigned from
        `src`'s tensor of the same tag, if `src` has one; no other entry
        changes. */
    method AssignTag(src: Variables<T>, i: nat)
      modifies data
      requires Valid() && src.Valid() && src.data != data && i < |layout.tags|
      requires TensorsAgree(src) && (SharesTagWith(src) ==> src.npts == npts)
      ensures TagSlice(i) == Incoming(src, i).GetOr(old(TagSlice(i)))
      ensures forall i' :: 0 <= i' < |layout.tags| && i' != i ==> TagSlice(i') == old(TagSlice(i'))
      ensures forall p :: 0 <= p < data.Length && !(TagStart(i) <= p < TagStart(i + 1)) ==> data[p] == old(data[p])
    {
      TagBounds(i);
      if layout.tags[i] in src.layout.tags {
        var j := IndexOf(src.layout.tags, layout.tags[i]);
        CopyTag(src, i, j);
      }
      OtherTagsKept(i);
    }

    /** Copies `src`'s tensor of tag `j` into this object's tensor of tag
        `i`, which holds the same tensor. */
    method CopyTag(src: Variables<T>, i: nat, j: nat)
      modifies data
      requires Valid() && src.Valid() && src.data != data && i < |layout.tags| && j < |src.layout.tags|
      requires layout.tensorSizes[i] == src.layout.tensorSizes[j] && src.npts == npts
      ensures TagSlice(i) == src.TagSlice(j)
      ensures forall p :: 0 <= p < data.Length && !(TagStart(i) <= p < TagStart(i + 1)) ==> data[p] == old(data[p])
    {
      TagBounds(i);
      src.TagBounds(j);
      var lo, hi := TagStart(i), TagStart(i + 1);
      CopyRange(src.data, src.TagStart(j), data, lo, hi - lo);
    }

    /** A write confined to the entries of tag `i` leaves the tensors of
        the other tags as they were. */
    twostate lemma OtherTagsKept(i: nat)
      requires old(Valid()) && Valid() && unchanged(this) && i < |layout.tags|
      requires forall p :: 0 <= p < data.Length && !(TagStart(i) <= p < TagStart(i + 1)) ==> data[p] == old(data[p])
      ensures forall i' :: 0 <= i' < |layout.tags| && i' != i ==> TagSlice(i') == old(TagSlice(i'))
    {
      forall i' | 0 <= i' < |layout.tags| && i' != i
        ensures TagSlice(i') == old(TagSlice(i'))
      {
        TagBounds(i');
        if i' < i {
          TagsOrdered(i', i);
        } else {
          TagsOrdered(i, i');
        }
        SlicesAgree(data[..], old(data[..]), TagStart(i'), TagStart(i' + 1));
      }
    }

    /** `extract_subset`: a new owning object with this object's number of
        grid points, holding copies of the tensors of the tags of `sub`. */
    method ExtractSubset(sub: Layout) returns (r: Variables<T>)
      requires Valid() && sub.WellFormed()
      requires forall i :: 0 <= i < |sub.tags| ==> sub.tags[i] in layout.tags
      requires forall i, j :: 0 <= i < |sub.tags| && 0 <= j < |layout.tags| && sub.tags[i] == layout.tags[j] ==>
                 sub.tensorSizes[i] == layout.tensorSizes[j]
      ensures fresh(r) && r.Valid() && r.owning && r.layout == sub && r.npts == npts
      ensures forall i :: 0 <= i < |sub.tags| ==> r.TagSlice(i) == TagSlice(IndexOf(layout.tags, sub.tags[i]))
    {
      r := new Variables<T>.WithPoints(sub, npts);
      r.AssignSubset(this);
    }

    /**
     * `lhs *= rhs` and `lhs /= rhs` by a vector of one value per grid
     * point, with `op` the entry type's `*` or `/`: entry `s` of every
     * component is combined with `rhs[s]`, and nothing else changes.
     */
    method ScaleBy(rhs: seq<T>, op: (T, T) -> T)
      modifies data
      requires Valid() && |rhs| == npts
      ensures forall c, s :: 0 <= c < ncomp && 0 <= s < npts ==> Entry(c, s) == op(old(Entry(c, s)), rhs[s])
      ensures forall p :: 0 <= p < data.Length && !(start <= p < start + size) ==> data[p] == old(data[p])
    {
      var c := 0;
      var row := start;
      while c < ncomp
        invariant 0 <= c <= ncomp && row == Index(c, 0)
        invariant forall c', s :: 0 <= c' < c && 0 <= s < npts ==> Entry(c', s) == op(old(Entry(c', s)), rhs[s])
        invariant forall p :: 0 <= p < data.Length && !(start <= p < row) ==> data[p] == old(data[p])
      {
        MulMonotone(npts, c + 1, ncomp);
        MulDistributes(npts, c, 1);
        label Row:
        CombineRange(data, row, rhs, op);
        forall c', s | 0 <= c' < c && 0 <= s < npts
          ensures Entry(c', s) == op(old(Entry(c', s)), rhs[s])
        {
          IndexOrdered(c', s, c, 0);
          assert Entry(c', s) == old@Row(Entry(c', s));
        }
        forall s | 0 <= s < npts
          ensures Entry(c, s) == op(old(Entry(c, s)), rhs[s])
        {
          assert Index(c, s) == row + s;
        }
        row := row + npts;
        c := c + 1;
      }
    }

    /** `lhs * rhs`, `rhs * lhs` and `lhs / rhs` by a vector: a copy of
        this object with every entry combined as by `ScaleBy`. */
    method Scaled(rhs: seq<T>, op: (T, T) -> T) returns (r: Variables<T>)
      requires Valid() && |rhs| == npts
      ensures fresh(r) && r.Valid() && r.owning && r.layout == layout && r.npts == npts
      ensures forall c, s :: 0 <= c < ncomp && 0 <= s < npts ==> r.Entry(c, s) == op(Entry(c, s), rhs[s])
    {
      r := new Variables<T>.Copy(layout, this);
      r.EntriesOfEqualContents(this);
      r.ScaleBy(rhs, op);
    }

    /** Two objects of the same shape holding equal entries agree on every
        component at every grid point. */
    lemma EntriesOfEqualContents(other: Variables<T>)
      requires Valid() && other.Valid() && Contents() == other.Contents()
      requires ncomp == other.ncomp && npts == other.npts
      ensures forall c, s :: 0 <= c < ncomp && 0 <= s < npts ==> Entry(c, s) == other.Entry(c, s)
    {
      forall c, s | 0 <= c < ncomp && 0 <= s < npts
        ensures Entry(c, s) == other.Entry(c, s)
      {
        EntryInRange(c, s);
        assert Entry(c, s) == Contents()[npts * c + s];
        assert other.Entry(c, s) == other.Contents()[npts * c + s];
      }
    }

    /** `contains_allocations`: more than one grid point. An owning object
        has a heap buffer exactly then. */
    function ContainsAllocations(): (r: bool)
      reads this
      requires Valid()
      ensures owning ==> (r <==> dynamic)
      ensures r ==> size > ncomp
    {
      npts > 1
    }
  }

  /** Combines the `|rhs|` entries of `a` from `from` with `rhs`, entry by
      entry; the rest of `a` keeps its entries. */
  method CombineRange<T>(a: array<T>, from: nat, rhs: seq<T>, op: (T, T) -> T)
    modifies a
    requires from + |rhs| <= a.Length
    ensures forall s :: 0 <= s < |rhs| ==> a[from + s] == op(old(a[from + s]), rhs[s])
    ensures forall p :: 0 <= p < a.Length && !(from <= p < from + |rhs|) ==> a[p] == old(a[p])
  {
    var s := 0;
    while s < |rhs|
      invariant 0 <= s <= |rhs|
      invariant forall s' :: 0 <= s' < s ==> a[from + s'] == op(old(a[from + s']), rhs[s'])
      invariant forall p :: 0 <= p < a.Length && !(from <= p < from + s) ==> a[p] == old(a[p])
    {
      a[from + s] := op(a[from + s], rhs[s]);
      s := s + 1;
    }
  }

  /** Copies `len` entries of `src` from `srcFrom` into `dst` from
      `dstFrom`; the rest of `dst` keeps its entries. */
  method CopyRange<T>(src: array<T>, srcFrom: nat, dst: array<T>, dstFrom: nat, len: nat)
    modifies dst
    requires src != dst && srcFrom + len <= src.Length && dstFrom + len <= dst.Length
    ensures dst[dstFrom..dstFrom + len] == src[srcFrom..srcFrom + len]
    ensures forall p :: 0 <= p < dst.Length && !(dstFrom <= p < dstFrom + len) ==> dst[p] == old(dst[p])
  {
    forall k | 0 <= k < len {
      dst[dstFrom + k] := src[srcFrom + k];
    }
  }

  /** Packing an owning object and unpacking the result into another owning
      object reproduces the number of grid points and the entries. */
  method PupRoundTrip<T(0)>(src: Variables<T>, dst: Variables<T>)
    modifies dst, dst.data
    requires src.Valid() && src.owning && dst.Valid() && dst.owning && src != dst && src.data != dst.data
    requires dst.layout.tensorSizes == src.layout.tensorSizes
    ensures dst.Valid() && dst.npts == src.npts && dst.size == src.size && dst.Contents() == src.Contents()
  {
    var p := src.Pack();
    dst.Unpack(p);
  }
}
