/** Where a model's weight groups go on the device (benchmarks/dsv4_exec.cc, and benchmarks/qwen38_exec.cc
    without the host's table): dense groups share a region, and each layer's experts a slab, a stride apart. */
module Placement {
  import opened Arithmetic
  import opened Collections
  import opened Divisors
  import opened Results

  datatype GroupKind = Table | Layer | Expert | Global | Head

  /** A group, with its number among its layer's experts if it is one. */
  datatype Group = Group(kind: GroupKind, stored: nat, expert: nat)

  datatype Resource = Resource(group: nat, offset: nat)

  datatype ExpertArray = ExpertArray(firstGroup: nat, groupOffset: nat)

  /** A bound expert tensor: its array, and its type's block size if the type is known. */
  datatype Tensor = Tensor(arrayIndex: nat, block: Option<nat>)

  /** What is placed: the artifact's groups, resources and arrays, each layer's expert tensors, the experts a
      layer has and the token table's resource. */
  datatype Model = Model(groups: seq<Group>, resources: seq<Resource>, arrays: seq<ExpertArray>,
                         layers: seq<seq<Tensor>>, experts: nat, table: nat)

  /** The group that stays on the host, or none: the number of groups. */
  function TableGroup(m: Model): nat {
    if m.table < |m.resources| then m.resources[m.table].group else |m.groups|
  }

  ghost predicate Valid(m: Model) {
    && (forall r | 0 <= r < |m.resources| :: m.resources[r].group < |m.groups|)
    && (forall a | 0 <= a < |m.arrays| ::
          m.arrays[a].firstGroup < |m.groups| && m.arrays[a].firstGroup + m.experts <= |m.groups|)
    && (forall il | 0 <= il < |m.layers| :: ValidLayer(m, m.layers[il]))
  }

  /** What the artifact's reader has made sure of: an array's groups are its layer's experts in order, so each group has
      its own number in every array that holds it. */
  ghost predicate Numbered(m: Model)
    requires Valid(m)
  {
    forall a, g | 0 <= a < |m.arrays| && m.arrays[a].firstGroup <= g < m.arrays[a].firstGroup + m.experts ::
      m.groups[g].expert == g - m.arrays[a].firstGroup
  }

  predicate IsExpert(g: Group, stored: nat) {
    g.kind == Expert && g.stored == stored
  }

  ghost predicate ValidLayer(m: Model, tensors: seq<Tensor>) {
    tensors != [] && forall t | 0 <= t < |tensors| ::
      tensors[t].arrayIndex < |m.arrays| && (tensors[t].block.Some? ==> 0 < tensors[t].block.value)
  }

  /** A layer's expert groups and the distance between them. */
  datatype Slots = Slots(first: nat, stored: nat, stride: nat)

  // ------------------------------------------------------------------------------ the stride

  /** A number that 16 and every block size of the layer's tensors divide. */
  ghost predicate Fits(tensors: seq<Tensor>, n: nat, x: nat)
    requires n <= |tensors|
  {
    Divides(16, x) && forall t | 0 <= t < n :: tensors[t].block.Some? && Divides(tensors[t].block.value, x)
  }

  /** A layer's tensors are of known types, in arrays that share their groups, all of them experts' of one size. */
  ghost predicate Uniform(m: Model, tensors: seq<Tensor>)
    requires Valid(m) && ValidLayer(m, tensors)
  {
    var first := m.arrays[tensors[0].arrayIndex].firstGroup;
    && (forall t | 0 <= t < |tensors| :: tensors[t].block.Some? && m.arrays[tensors[t].arrayIndex].firstGroup == first)
    && (forall g | first <= g < first + m.experts :: IsExpert(m.groups[g], m.groups[first].stored))
  }

  lemma DividesTransitive(a: nat, b: nat, c: nat)
    requires Divides(a, b) && Divides(b, c)
    ensures Divides(a, c)
  {
    var k: nat :| b == Times(k, a);
    var l: nat :| c == Times(l, b);
    Associated(l, k, a);
    assert c == Times(Times(l, k), a);
  }

  lemma Associated(l: int, k: int, a: int)
    ensures Times(l, Times(k, a)) == Times(Times(l, k), a)
  {
  }

  // The unit of a layer's first tensors: what fits them are its multiples.
  ghost predicate IsUnit(tensors: seq<Tensor>, n: nat, unit: nat)
    requires n <= |tensors|
  {
    0 < unit && Fits(tensors, n, unit) && forall x: nat | Fits(tensors, n, x) :: Divides(unit, x)
  }

  lemma UnitGrows(tensors: seq<Tensor>, n: nat, unit: nat)
    requires n < |tensors| && IsUnit(tensors, n, unit) && tensors[n].block.Some? && 0 < tensors[n].block.value
    ensures IsUnit(tensors, n + 1, Lcm(unit, tensors[n].block.value))
  {
    var block := tensors[n].block.value;
    var next := Lcm(unit, block);
    LcmLeast(unit, block);
    hide Lcm, Divides;
    DividesTransitive(16, unit, next);
    forall t | 0 <= t < n ensures Divides(tensors[t].block.value, next) {
      DividesTransitive(tensors[t].block.value, unit, next);
    }
    forall x: nat | Fits(tensors, n + 1, x) ensures Divides(next, x) {
      assert Fits(tensors, n, x);
    }
  }

  /** The least stride: it holds a group and fits 16 and every block size, and no smaller number does. */
  ghost predicate LeastStride(tensors: seq<Tensor>, stored: nat, stride: nat) {
    && stored <= stride && Fits(tensors, |tensors|, stride)
    && forall x: nat | stored <= x && Fits(tensors, |tensors|, x) :: stride <= x
  }

  lemma RoundedStride(tensors: seq<Tensor>, stored: nat, unit: nat)
    requires IsUnit(tensors, |tensors|, unit)
    ensures LeastStride(tensors, stored, Round(stored, unit))
  {
    var stride := Round(stored, unit);
    RoundLeast(stored, unit);
    hide Round, Divides;
    DividesTransitive(16, unit, stride);
    forall t | 0 <= t < |tensors| ensures Divides(tensors[t].block.value, stride) {
      DividesTransitive(tensors[t].block.value, unit, stride);
    }
  }

  /** A layer's groups and its stride; refused exactly when the layer is not uniform. */
  method LayerSlots(m: Model, tensors: seq<Tensor>) returns (r: Result<Slots>)
    requires Valid(m) && ValidLayer(m, tensors)
    ensures r.Ok? <==> Uniform(m, tensors)
    ensures r.Ok? ==>
        && r.value.first == m.arrays[tensors[0].arrayIndex].firstGroup
        && r.value.stored == m.groups[r.value.first].stored
        && LeastStride(tensors, r.value.stored, r.value.stride)
  {
    hide Divides, Lcm;
    var unit, stored, first := 16, 0, None;
    SixteenUnit(tensors);
    for n := 0 to |tensors|
      invariant IsUnit(tensors, n, unit)
      invariant n == 0 <==> first.None?
      invariant first.Some? ==> first.value == m.arrays[tensors[0].arrayIndex].firstGroup && stored == m.groups[first.value].stored
      invariant forall t | 0 <= t < n ::
          tensors[t].block.Some? && m.arrays[tensors[t].arrayIndex].firstGroup == m.arrays[tensors[0].arrayIndex].firstGroup
    {
      var a := m.arrays[tensors[n].arrayIndex];
      if tensors[n].block.None? { return Err("an unknown type"); }
      UnitGrows(tensors, n, unit);
      unit := Lcm(unit, tensors[n].block.value);
      if first.Some? && first.value != a.firstGroup { return Err("the expert arrays do not share their groups"); }
      first := Some(a.firstGroup);
      stored := m.groups[a.firstGroup].stored;
    }
    for e := 0 to m.experts
      invariant forall g | first.value <= g < first.value + e :: IsExpert(m.groups[g], stored)
    {
      var g := m.groups[first.value + e];
      if g.kind != Expert || g.stored != stored { return Err("the expert groups are not uniform"); }
    }
    RoundedStride(tensors, stored, unit);
    return Ok(Slots(first.value, stored, Round(stored, unit)));
  }

  lemma SixteenUnit(tensors: seq<Tensor>)
    ensures IsUnit(tensors, 0, 16)
  {
    assert 16 == Times(1, 16);
  }

  // -------------------------------------------------------------------------- the regions

  /** An allocator: what its i-th call gives for a size. What it gives is aligned, and what different calls give is
      disjoint. */
  ghost predicate ValidAllocator(alloc: (nat, nat) -> Option<nat>) {
    && (forall i, n :: alloc(i, n).Some? ==> Divides(256, alloc(i, n).value))
    && (forall i, m, j, n :: i != j && alloc(i, m).Some? && alloc(j, n).Some? ==>
          Disjoint(alloc(i, m).value, m, alloc(j, n).value, n))
  }

  /** The layers' slots, with the bytes the strides add. */
  method AllSlots(m: Model) returns (r: Result<(seq<Slots>, int)>)
    requires Valid(m)
    ensures r.Ok? <==> forall il | 0 <= il < |m.layers| :: Uniform(m, m.layers[il])
    ensures r.Ok? ==> |r.value.0| == |m.layers| && forall il | 0 <= il < |m.layers| :: SlotsOf(m, il, r.value.0[il])
    ensures r.Ok? ==> r.value.1 == Padding(r.value.0, m.experts)
    ensures r.Ok? ==> AllFirstStored(m, r.value.0)
  {
    hide Uniform, SlotsOf, FirstStored;
    var slots: seq<Slots>, padding := [], 0;
    for il := 0 to |m.layers|
      invariant |slots| == il && padding == Padding(slots, m.experts)
      invariant forall i | 0 <= i < il :: Uniform(m, m.layers[i]) && SlotsOf(m, i, slots[i])
      invariant AllFirstStored(m, slots)
    {
      var one := LayerSlots(m, m.layers[il]);
      if one.Err? { return Err(one.error); }
      LayerSlotsOf(m, il, one.value);
      assert FirstStored(m, one.value);
      padding := padding + (one.value.stride - one.value.stored) * m.experts;
      assert (slots + [one.value])[..il] == slots;
      slots := slots + [one.value];
    }
    return Ok((slots, padding));
  }

  ghost predicate SlotsOf(m: Model, il: nat, s: Slots)
    requires Valid(m) && il < |m.layers|
  {
    && s.first + m.experts <= |m.groups| && s.stored <= s.stride
    && (forall t | 0 <= t < |m.layers[il]| :: m.arrays[m.layers[il][t].arrayIndex].firstGroup == s.first)
    && (forall g | s.first <= g < s.first + m.experts :: IsExpert(m.groups[g], s.stored))
    && LeastStride(m.layers[il], s.stored, s.stride)
  }

  // What is stored of a group is read off the layer's first.
  ghost predicate FirstStored(m: Model, s: Slots) {
    s.first < |m.groups| && s.stored == m.groups[s.first].stored
  }

  ghost predicate AllFirstStored(m: Model, slots: seq<Slots>) {
    forall il {:trigger FirstStored(m, slots[il])} | 0 <= il < |slots| :: FirstStored(m, slots[il])
  }

  lemma LayerSlotsOf(m: Model, il: nat, s: Slots)
    requires Valid(m) && il < |m.layers| && Uniform(m, m.layers[il])
    requires s.first == m.arrays[m.layers[il][0].arrayIndex].firstGroup && s.stored == m.groups[s.first].stored
    requires LeastStride(m.layers[il], s.stored, s.stride)
    ensures SlotsOf(m, il, s) && s.stored <= s.stride && FirstStored(m, s)
  {
    hide Fits;
  }

  function Padding(slots: seq<Slots>, experts: nat): int {
    if slots == [] then 0
    else var s := slots[|slots| - 1]; Padding(slots[..|slots| - 1], experts) + (s.stride - s.stored) * experts
  }

  function StoredBytes(slots: seq<Slots>, experts: nat): nat {
    if slots == [] then 0
    else StoredBytes(slots[..|slots| - 1], experts) + slots[|slots| - 1].stored * experts
  }

  function SlabBytes(slots: seq<Slots>, experts: nat): nat {
    if slots == [] then 0
    else SlabBytes(slots[..|slots| - 1], experts) + slots[|slots| - 1].stride * experts
  }

  /** The slabs' bytes are the experts' stored bytes and the padding, no more and no less. */
  lemma {:induction false} SlabConserved(slots: seq<Slots>, experts: nat)
    ensures SlabBytes(slots, experts) == StoredBytes(slots, experts) + Padding(slots, experts)
  {
    if slots != [] {
      SlabConserved(slots[..|slots| - 1], experts);
      var s := slots[|slots| - 1];
      assert s.stride * experts == s.stored * experts + (s.stride - s.stored) * experts;
    }
  }

  /** Which groups are some layer's experts. */
  method MarkExperts(groups: nat, slots: seq<Slots>, experts: nat) returns (expert: seq<bool>)
    requires forall il | 0 <= il < |slots| :: slots[il].first + experts <= groups
    ensures |expert| == groups
    ensures forall g | 0 <= g < groups :: expert[g] <==> Owned(slots, experts, g)
  {
    expert := seq(groups, _ => false);
    for il := 0 to |slots|
      invariant |expert| == groups
      invariant forall g | 0 <= g < groups :: expert[g] <==> Owned(slots[..il], experts, g)
    {
      ghost var before := expert;
      for e := 0 to experts
        invariant |expert| == groups
        invariant forall g | 0 <= g < groups ::
            expert[g] <==> before[g] || slots[il].first <= g < slots[il].first + e
      {
        expert := expert[slots[il].first + e := true];
      }
      forall g: nat ensures Owned(slots[..il + 1], experts, g)
                            <==> Owned(slots[..il], experts, g) || slots[il].first <= g < slots[il].first + experts {
        OwnedMore(slots, experts, il, g);
      }
    }
    assert slots[..|slots|] == slots;
  }

  // Some layer's experts include a group.
  ghost predicate Owned(slots: seq<Slots>, experts: nat, g: nat) {
    exists il :: 0 <= il < |slots| && slots[il].first <= g < slots[il].first + experts
  }

  lemma OwnedMore(slots: seq<Slots>, experts: nat, il: nat, g: nat)
    requires il < |slots|
    ensures Owned(slots[..il + 1], experts, g)
            <==> Owned(slots[..il], experts, g) || slots[il].first <= g < slots[il].first + experts
  {
    if Owned(slots[..il], experts, g) {
      var i :| 0 <= i < il && slots[..il][i].first <= g < slots[..il][i].first + experts;
      assert slots[..il + 1][i] == slots[i];
    }
    if slots[il].first <= g < slots[il].first + experts { assert slots[..il + 1][il] == slots[il]; }
  }

  // ------------------------------------------------------------------------- the dense groups

  predicate Dense(expert: seq<bool>, table: nat, g: nat)
    requires g < |expert|
  {
    !expert[g] && g != table
  }

  /** The dense groups among the first `n`, one after another at aligned offsets within `bytes`. */
  ghost predicate Laid(groups: seq<Group>, expert: seq<bool>, table: nat, offset: seq<nat>, n: nat, bytes: nat)
    requires n <= |groups| == |expert| == |offset|
  {
    && Divides(256, bytes)
    && (forall g | 0 <= g < n && Dense(expert, table, g) ::
          groups[g].kind != Expert && Divides(256, offset[g]) && offset[g] + groups[g].stored <= bytes)
    && (forall g, h | 0 <= g < h < n && Dense(expert, table, g) && Dense(expert, table, h) ::
          offset[g] + groups[g].stored <= offset[h])
  }

  /** What the dense groups among the first `n` take, each rounded up. */
  function DenseBytes(groups: seq<Group>, expert: seq<bool>, table: nat, n: nat): nat
    requires n <= |groups| == |expert|
  {
    if n == 0 then 0
    else DenseBytes(groups, expert, table, n - 1)
         + if Dense(expert, table, n - 1) then Round(groups[n - 1].stored, 256) else 0
  }

  /** One of the dense groups among the first `n` has a byte there. */
  ghost predicate Used(groups: seq<Group>, expert: seq<bool>, table: nat, offset: seq<nat>, n: nat, x: nat)
    requires n <= |groups| == |expert| == |offset|
  {
    exists g :: 0 <= g < n && Dense(expert, table, g) && offset[g] <= x < offset[g] + groups[g].stored
  }

  /** No 256 bytes are wasted: each begins with some group's. */
  ghost predicate Tight(groups: seq<Group>, expert: seq<bool>, table: nat, offset: seq<nat>, n: nat, bytes: nat)
    requires n <= |groups| == |expert| == |offset|
  {
    forall x: nat {:trigger Used(groups, expert, table, offset, n, x)} :: x < bytes && x % 256 == 0 ==>
      Used(groups, expert, table, offset, n, x)
  }

  lemma NoneTight(groups: seq<Group>, expert: seq<bool>, table: nat, offset: seq<nat>)
    requires |groups| == |expert| == |offset|
    ensures Tight(groups, expert, table, offset, 0, 0)
  {
  }

  lemma TightMore(groups: seq<Group>, expert: seq<bool>, table: nat, offset: seq<nat>, g: nat, bytes: nat)
    requires g < |groups| == |expert| == |offset| && Tight(groups, expert, table, offset, g, bytes) && Divides(256, bytes)
    ensures !Dense(expert, table, g) ==> Tight(groups, expert, table, offset, g + 1, bytes)
    ensures Dense(expert, table, g) ==>
              Tight(groups, expert, table, offset[g := bytes], g + 1, bytes + Round(groups[g].stored, 256))
  {
    var dense, after := Dense(expert, table, g), Round(groups[g].stored, 256);
    var laid, end := if dense then offset[g := bytes] else offset, if dense then bytes + after else bytes;
    RoundLeast(groups[g].stored, 256);
    hide Round;
    forall x: nat | x < end && x % 256 == 0 ensures Used(groups, expert, table, laid, g + 1, x) {
      if x < bytes {
        assert Used(groups, expert, table, offset, g, x);
        var h :| 0 <= h < g && Dense(expert, table, h) && offset[h] <= x < offset[h] + groups[h].stored;
        assert laid[h] == offset[h];
      } else {
        var q: nat :| bytes == Times(q, 256);
        var r: nat :| after == Times(r, 256);
        assert laid[g] <= x < laid[g] + groups[g].stored;
      }
    }
  }

  /** Lays the dense groups out; refused exactly when an expert group belongs to no layer. */
  method LayDense(groups: seq<Group>, expert: seq<bool>, table: nat) returns (r: Result<(seq<nat>, nat)>)
    requires |expert| == |groups|
    ensures r.Ok? <==> forall g | 0 <= g < |groups| && Dense(expert, table, g) :: groups[g].kind != Expert
    ensures r.Ok? ==> |r.value.0| == |groups| && Laid(groups, expert, table, r.value.0, |groups|, r.value.1)
    ensures r.Ok? ==> r.value.1 == DenseBytes(groups, expert, table, |groups|)
    ensures r.Ok? ==> Tight(groups, expert, table, r.value.0, |groups|, r.value.1)
  {
    var offset: seq<nat>, bytes: nat := seq(|groups|, _ => 0), 0;
    assert 0 == Times(0, 256);
    hide Divides, Round, Tight;
    assert Tight(groups, expert, table, offset, 0, 0) by { NoneTight(groups, expert, table, offset); }
    for g := 0 to |groups|
      invariant |offset| == |groups| && Laid(groups, expert, table, offset, g, bytes)
      invariant bytes == DenseBytes(groups, expert, table, g) && Tight(groups, expert, table, offset, g, bytes)
    {
      TightMore(groups, expert, table, offset, g, bytes);
      if Dense(expert, table, g) {
        if groups[g].kind == Expert { return Err("an expert group belongs to no bound array"); }
        RoundLeast(groups[g].stored, 256);
        DividesSum(256, bytes, Round(groups[g].stored, 256));
        offset := offset[g := bytes];
        bytes := bytes + Round(groups[g].stored, 256);
      }
    }
    return Ok((offset, bytes));
  }

  // ---------------------------------------------------------------------------- the addresses

  /** Where everything is. */
  datatype Weights = Weights(dense: nat, denseBytes: nat, address: seq<nat>, slab: seq<nat>, slots: seq<Slots>,
                             slabBytes: nat, padding: int, tableGroup: nat)

  predicate Has(s: Slots, experts: nat, g: nat) {
    s.first <= g < s.first + experts
  }

  /** After the first `n` layers, a group is in its slot of its owner's slab, the last layer that has it; with no
      owner (-1), it is at its dense place and no layer has it. */
  ghost predicate PlacedAt(slots: seq<Slots>, n: nat, experts: nat, slab: seq<nat>, dense: nat, address: nat, owner: int, g: nat)
    requires n <= |slots| && n <= |slab|
  {
    && -1 <= owner < n
    && (forall il | owner < il < n :: !Has(slots[il], experts, g))
    && if owner < 0 then address == dense
       else Has(slots[owner], experts, g) && address == slab[owner] + Times(g - slots[owner].first, slots[owner].stride)
  }

  /** Places a layer's experts at its stride, over whatever their addresses were. */
  method PlaceExperts(address: seq<nat>, slab: nat, s: Slots, experts: nat) returns (r: seq<nat>)
    requires s.first + experts <= |address|
    ensures |r| == |address|
    ensures forall g | 0 <= g < |address| ::
        r[g] == if s.first <= g < s.first + experts then slab + Times(g - s.first, s.stride) else address[g]
  {
    r := address;
    for e := 0 to experts
      invariant |r| == |address|
      invariant forall g | 0 <= g < |address| ::
          r[g] == if s.first <= g < s.first + e then slab + Times(g - s.first, s.stride) else address[g]
    {
      assert 0 <= Times(e, s.stride);
      r := r[s.first + e := slab + e * s.stride];
    }
  }

  // One more layer takes the groups it has and leaves the rest.
  lemma PlacedMore(slots: seq<Slots>, n: nat, experts: nat, slab: seq<nat>, base: nat, dense: nat, address: nat, owner: int, g: nat)
    requires n < |slots| && |slab| == n && PlacedAt(slots, n, experts, slab, dense, address, owner, g)
    ensures var s := slots[n];
            if Has(s, experts, g)
            then 0 <= base + Times(g - s.first, s.stride) &&
                 PlacedAt(slots, n + 1, experts, slab + [base], dense, base + Times(g - s.first, s.stride), n, g)
            else PlacedAt(slots, n + 1, experts, slab + [base], dense, address, owner, g)
  {
    if Has(slots[n], experts, g) { assert 0 <= Times(g - slots[n].first, slots[n].stride); }
  }

  /** The allocator refuses a slab it is asked for. */
  ghost predicate SlabRefused(slots: seq<Slots>, experts: nat, alloc: (nat, nat) -> Option<nat>) {
    exists il :: 0 <= il < |slots| && alloc(il + 1, slots[il].stride * experts).None?
  }

  /** The slabs allocated, each layer's experts placed in its own. */
  method PlaceSlabs(slots: seq<Slots>, experts: nat, dense: seq<nat>, alloc: (nat, nat) -> Option<nat>)
    returns (r: Result<(seq<nat>, seq<nat>, nat)>, ghost owner: seq<int>)
    requires forall il | 0 <= il < |slots| :: slots[il].first + experts <= |dense|
    ensures r.Ok? <==> !SlabRefused(slots, experts, alloc)
    ensures r.Ok? ==>
        var (address, slab, bytes) := r.value;
        && |address| == |owner| == |dense| && |slab| == |slots| && bytes == SlabBytes(slots, experts)
        && (forall il | 0 <= il < |slots| :: alloc(il + 1, slots[il].stride * experts) == Some(slab[il]))
        && (forall g | 0 <= g < |dense| :: PlacedAt(slots, |slots|, experts, slab, dense[g], address[g], owner[g], g))
  {
    hide PlacedAt, Times;
    var address, slab: seq<nat>, bytes: nat := dense, [], 0;
    owner := seq(|dense|, _ => -1);
    forall g | 0 <= g < |dense| ensures PlacedAt(slots, 0, experts, slab, dense[g], address[g], owner[g], g) {
      PlacedNowhere(slots, experts, dense[g], g);
    }
    for il := 0 to |slots|
      invariant |address| == |owner| == |dense| && |slab| == il && bytes == SlabBytes(slots[..il], experts)
      invariant forall i | 0 <= i < il :: alloc(i + 1, slots[i].stride * experts) == Some(slab[i])
      invariant forall g | 0 <= g < |dense| :: PlacedAt(slots, il, experts, slab, dense[g], address[g], owner[g], g)
    {
      var base := alloc(il + 1, slots[il].stride * experts);
      if base.None? { return Err("an expert slab"), owner; }
      ghost var before, owned := address, owner;
      address := PlaceExperts(address, base.value, slots[il], experts);
      owner := seq(|dense|, g requires 0 <= g < |owner| => if Has(slots[il], experts, g) then il else owner[g]);
      forall g | 0 <= g < |dense|
        ensures PlacedAt(slots, il + 1, experts, slab + [base.value], dense[g], address[g], owner[g], g)
      {
        PlacedMore(slots, il, experts, slab, base.value, dense[g], before[g], owned[g], g);
      }
      slab := slab + [base.value];
      assert slots[..il + 1][..il] == slots[..il];
      bytes := bytes + slots[il].stride * experts;
    }
    assert slots[..|slots|] == slots;
    return Ok((address, slab, bytes)), owner;
  }

  lemma PlacedNowhere(slots: seq<Slots>, experts: nat, dense: nat, g: nat)
    ensures PlacedAt(slots, 0, experts, [], dense, dense, -1, g)
  {
  }

  // ------------------------------------------------------------------------------ the whole

  function First(m: Model, il: nat): nat
    requires Valid(m) && il < |m.layers|
  {
    m.arrays[m.layers[il][0].arrayIndex].firstGroup
  }

  /** Some layer's experts include a group. */
  ghost predicate Bound(m: Model, g: nat)
    requires Valid(m)
  {
    exists il :: 0 <= il < |m.layers| && First(m, il) <= g < First(m, il) + m.experts
  }

  /** What can be placed: the table's group is the table's alone and no layer's, every layer is uniform, and every
      expert group is some layer's. */
  ghost predicate Placeable(m: Model)
    requires Valid(m)
  {
    var table := TableGroup(m);
    && (forall r | 0 <= r < |m.resources| && r != m.table :: m.resources[r].group != table)
    && (forall il | 0 <= il < |m.layers| :: Uniform(m, m.layers[il]))
    && !Bound(m, table)
    && (forall g | 0 <= g < |m.groups| && g != table && !Bound(m, g) :: m.groups[g].kind != Expert)
  }

  lemma OwnedIsBound(m: Model, slots: seq<Slots>, g: nat)
    requires Valid(m) && |slots| == |m.layers| && forall il | 0 <= il < |slots| :: SlotsOf(m, il, slots[il])
    ensures Owned(slots, m.experts, g) <==> Bound(m, g)
  {
    forall il | 0 <= il < |slots| ensures slots[il].first == First(m, il) {
      assert SlotsOf(m, il, slots[il]);
    }
    if Owned(slots, m.experts, g) {
      var il :| 0 <= il < |slots| && slots[il].first <= g < slots[il].first + m.experts;
      assert First(m, il) <= g < First(m, il) + m.experts;
    }
  }

  lemma AllBound(m: Model, slots: seq<Slots>)
    requires Valid(m) && |slots| == |m.layers| && forall il | 0 <= il < |slots| :: SlotsOf(m, il, slots[il])
    ensures forall g: nat :: Owned(slots, m.experts, g) <==> Bound(m, g)
    ensures forall il | 0 <= il < |slots| :: slots[il].first + m.experts <= |m.groups|
    ensures forall g: nat | |m.groups| <= g :: !Bound(m, g)
  {
    forall g: nat { OwnedIsBound(m, slots, g); }
    hide Bound, LeastStride;
    forall il | 0 <= il < |slots| ensures slots[il].first + m.experts <= |m.groups| { assert SlotsOf(m, il, slots[il]); }
  }

  /** A placement: the dense groups laid out in one allocation, each layer's experts in another. */
  ghost predicate Placed(m: Model, alloc: (nat, nat) -> Option<nat>, w: Weights, expert: seq<bool>, offset: seq<nat>,
                         owner: seq<int>)
    requires Valid(m)
  {
    && |w.address| == |expert| == |offset| == |owner| == |m.groups|
    && |w.slots| == |w.slab| == |m.layers|
    && (forall il | 0 <= il < |m.layers| :: SlotsOf(m, il, w.slots[il]))
    && (forall g | 0 <= g < |m.groups| :: expert[g] <==> Owned(w.slots, m.experts, g))
    && Laid(m.groups, expert, w.tableGroup, offset, |m.groups|, w.denseBytes)
    && alloc(0, w.denseBytes) == Some(w.dense)
    && (forall il | 0 <= il < |w.slots| :: alloc(il + 1, w.slots[il].stride * m.experts) == Some(w.slab[il]))
    && (forall g | 0 <= g < |m.groups| ::
          PlacedAt(w.slots, |w.slots|, m.experts, w.slab, w.dense + offset[g], w.address[g], owner[g], g))
  }

  // A group's slot lies in its layer's slab.
  lemma SlotInSlab(s: Slots, experts: nat, e: nat)
    requires s.stored <= s.stride && e < experts
    ensures 0 <= Times(e, s.stride) && Times(e, s.stride) + s.stored <= Times(experts, s.stride)
    ensures Times(experts, s.stride) == s.stride * experts
  {
    ProductMonotone(e + 1, experts, s.stride);
    assert Times(e + 1, s.stride) == Times(e, s.stride) + s.stride;
  }

  // Different slots of a slab do not overlap.
  lemma SlotsApart(s: Slots, e: nat, f: nat)
    requires s.stored <= s.stride && e < f
    ensures Times(e, s.stride) + s.stored <= Times(f, s.stride)
  {
    ProductMonotone(e + 1, f, s.stride);
    assert Times(e + 1, s.stride) == Times(e, s.stride) + s.stride;
  }

  /** A device group lies in its region: the dense one, or its owner's slab. */
  ghost predicate InRegion(m: Model, w: Weights, owner: int, g: nat) {
    && g < |m.groups| && g < |w.address| && -1 <= owner < |w.slots| == |w.slab|
    && var (base, size) := if owner < 0 then (w.dense, w.denseBytes) else (w.slab[owner], w.slots[owner].stride * m.experts);
       base <= w.address[g] && w.address[g] + m.groups[g].stored <= base + size
  }

  lemma GroupInRegion(m: Model, alloc: (nat, nat) -> Option<nat>, w: Weights, expert: seq<bool>, offset: seq<nat>,
                      owner: seq<int>, g: nat)
    requires Valid(m) && Placed(m, alloc, w, expert, offset, owner) && g < |m.groups| && g != w.tableGroup
    ensures InRegion(m, w, owner[g], g)
    ensures owner[g] < 0 <==> Dense(expert, w.tableGroup, g)
    ensures owner[g] >= 0 ==> IsExpert(m.groups[g], w.slots[owner[g]].stored)
  {
    hide Laid, LeastStride, Owned, Valid;
    assert PlacedAt(w.slots, |w.slots|, m.experts, w.slab, w.dense + offset[g], w.address[g], owner[g], g);
    OwnerOwns(w.slots, m.experts, g, owner[g]);
    if owner[g] < 0 {
      LaidInside(m.groups, expert, w.tableGroup, offset, w.denseBytes, g);
    } else {
      var s := w.slots[owner[g]];
      assert SlotsOf(m, owner[g], s);
      SlotInSlab(s, m.experts, g - s.first);
    }
  }

  lemma OwnerOwns(slots: seq<Slots>, experts: nat, g: nat, owner: int)
    requires -1 <= owner < |slots| && (owner >= 0 ==> Has(slots[owner], experts, g))
    requires forall il | owner < il < |slots| :: !Has(slots[il], experts, g)
    ensures Owned(slots, experts, g) <==> 0 <= owner
  {
  }

  lemma LaidInside(groups: seq<Group>, expert: seq<bool>, table: nat, offset: seq<nat>, bytes: nat, g: nat)
    requires g < |groups| == |expert| == |offset| && Laid(groups, expert, table, offset, |groups|, bytes)
    requires Dense(expert, table, g)
    ensures offset[g] + groups[g].stored <= bytes && Divides(256, offset[g])
  {
  }

  // The region a group is in, as the allocator's call and size.
  function CallOf(owner: int): nat
    requires -1 <= owner
  {
    owner + 1
  }

  function SizeOf(m: Model, w: Weights, owner: int): nat
    requires -1 <= owner < |w.slots|
  {
    if owner < 0 then w.denseBytes else w.slots[owner].stride * m.experts
  }

  function BaseOf(w: Weights, owner: int): nat
    requires -1 <= owner < |w.slab|
  {
    if owner < 0 then w.dense else w.slab[owner]
  }

  lemma RegionsApart(m: Model, alloc: (nat, nat) -> Option<nat>, w: Weights, i: int, j: int)
    requires ValidAllocator(alloc) && |w.slots| == |w.slab| && -1 <= i < |w.slots| && -1 <= j < |w.slots| && i != j
    requires alloc(CallOf(i), SizeOf(m, w, i)) == Some(BaseOf(w, i))
    requires alloc(CallOf(j), SizeOf(m, w, j)) == Some(BaseOf(w, j))
    ensures Disjoint(BaseOf(w, i), SizeOf(m, w, i), BaseOf(w, j), SizeOf(m, w, j))
  {
  }

  lemma Allocated(m: Model, alloc: (nat, nat) -> Option<nat>, w: Weights, expert: seq<bool>, offset: seq<nat>,
                  owner: seq<int>, i: int)
    requires Valid(m) && Placed(m, alloc, w, expert, offset, owner) && -1 <= i < |w.slots|
    ensures alloc(CallOf(i), SizeOf(m, w, i)) == Some(BaseOf(w, i))
  {
  }

  lemma LaidApart(groups: seq<Group>, expert: seq<bool>, table: nat, offset: seq<nat>, bytes: nat, g: nat, h: nat)
    requires g < h < |groups| == |expert| == |offset| && Laid(groups, expert, table, offset, |groups|, bytes)
    requires Dense(expert, table, g) && Dense(expert, table, h)
    ensures offset[g] + groups[g].stored <= offset[h]
  {
  }

  // Two groups of one region.
  lemma SameRegionApart(m: Model, alloc: (nat, nat) -> Option<nat>, w: Weights, expert: seq<bool>, offset: seq<nat>,
                        owner: seq<int>, g: nat, h: nat)
    requires Valid(m) && Placed(m, alloc, w, expert, offset, owner)
    requires g < h < |m.groups| && g != w.tableGroup && h != w.tableGroup && owner[g] == owner[h]
    ensures w.address[g] + m.groups[g].stored <= w.address[h]
  {
    hide *;
    GroupInRegion(m, alloc, w, expert, offset, owner, g);
    GroupInRegion(m, alloc, w, expert, offset, owner, h);
    WherePlaced(m, alloc, w, expert, offset, owner, g);
    WherePlaced(m, alloc, w, expert, offset, owner, h);
    if owner[g] < 0 {
      LaidApart(m.groups, expert, w.tableGroup, offset, w.denseBytes, g, h);
    } else {
      var s := w.slots[owner[g]];
      SlotsApart(s, g - s.first, h - s.first);
    }
  }

  // Where a group is, by its owner.
  lemma WherePlaced(m: Model, alloc: (nat, nat) -> Option<nat>, w: Weights, expert: seq<bool>, offset: seq<nat>,
                    owner: seq<int>, g: nat)
    requires Valid(m) && Placed(m, alloc, w, expert, offset, owner) && g < |m.groups|
    ensures |w.address| == |expert| == |offset| == |owner| == |m.groups| && |w.slots| == |w.slab| == |m.layers|
    ensures Laid(m.groups, expert, w.tableGroup, offset, |m.groups|, w.denseBytes)
    ensures -1 <= owner[g] < |w.slots|
    ensures owner[g] < 0 ==> w.address[g] == w.dense + offset[g]
    ensures owner[g] >= 0 ==>
              var s := w.slots[owner[g]];
              && s.first <= g < s.first + m.experts && s.stored <= s.stride && IsExpert(m.groups[g], s.stored)
              && m.groups[g].stored == s.stored
              && w.address[g] == w.slab[owner[g]] + Times(g - s.first, s.stride)
  {
    hide Laid, LeastStride, Owned;
    assert PlacedAt(w.slots, |w.slots|, m.experts, w.slab, w.dense + offset[g], w.address[g], owner[g], g);
    if owner[g] >= 0 { assert SlotsOf(m, owner[g], w.slots[owner[g]]); }
  }

  /** No two device groups overlap, whatever groups the layers share. */
  lemma GroupsApart(m: Model, alloc: (nat, nat) -> Option<nat>, w: Weights, expert: seq<bool>, offset: seq<nat>,
                    owner: seq<int>, g: nat, h: nat)
    requires Valid(m) && ValidAllocator(alloc) && Placed(m, alloc, w, expert, offset, owner)
    requires g < |m.groups| && h < |m.groups| && g != h && g != w.tableGroup && h != w.tableGroup
    ensures Disjoint(w.address[g], m.groups[g].stored, w.address[h], m.groups[h].stored)
  {
    if owner[g] == owner[h] {
      if g < h {
        SameRegionApart(m, alloc, w, expert, offset, owner, g, h);
      } else {
        SameRegionApart(m, alloc, w, expert, offset, owner, h, g);
      }
    } else {
      GroupInRegion(m, alloc, w, expert, offset, owner, g);
      GroupInRegion(m, alloc, w, expert, offset, owner, h);
      Allocated(m, alloc, w, expert, offset, owner, owner[g]);
      Allocated(m, alloc, w, expert, offset, owner, owner[h]);
      hide Placed, Valid, ValidAllocator;
      RegionsApart(m, alloc, w, owner[g], owner[h]);
    }
  }

  /** The address of an array: its first expert's slice. */
  function ArrayAddress(m: Model, w: Weights, a: nat): nat
    requires Valid(m) && a < |m.arrays| && |w.address| == |m.groups|
  {
    w.address[m.arrays[a].firstGroup] + m.arrays[a].groupOffset
  }

  lemma OwnerHas(m: Model, alloc: (nat, nat) -> Option<nat>, w: Weights, expert: seq<bool>, offset: seq<nat>,
                 owner: seq<int>, il: nat, g: nat)
    requires Valid(m) && Placed(m, alloc, w, expert, offset, owner)
    requires il < |m.layers| && Has(w.slots[il], m.experts, g) && g < |m.groups|
    ensures il <= owner[g] < |w.slots| && Has(w.slots[owner[g]], m.experts, g)
    ensures forall j | owner[g] < j < |w.slots| :: !Has(w.slots[j], m.experts, g)
    ensures w.address[g] == w.slab[owner[g]] + Times(g - w.slots[owner[g]].first, w.slots[owner[g]].stride)
  {
    assert PlacedAt(w.slots, |w.slots|, m.experts, w.slab, w.dense + offset[g], w.address[g], owner[g], g);
  }

  lemma TimesApart(e: nat, s: nat, t: nat)
    ensures Times(e, s) - Times(0, s) == Times(e, t) <==> e == 0 || s == t
  {
    if s < t { ProductMonotone(s + 1, t, e); }
    if t < s { ProductMonotone(t + 1, s, e); }
  }

  /** The last layer with a layer's groups: its own, or a later one that shares them. */
  ghost function LastSharing(slots: seq<Slots>, il: nat): (last: nat)
    requires il < |slots|
    ensures il <= last < |slots| && slots[last].first == slots[il].first
    ensures forall j | last < j < |slots| :: slots[j].first != slots[il].first
  {
    LastWith(slots, il, |slots|)
  }

  ghost function LastWith(slots: seq<Slots>, il: nat, n: nat): (last: nat)
    requires il < n <= |slots|
    ensures il <= last < n && slots[last].first == slots[il].first
    ensures forall j | last < j < n :: slots[j].first != slots[il].first
  {
    if slots[n - 1].first == slots[il].first then n - 1 else LastWith(slots, il, n - 1)
  }

  lemma FirstOf(m: Model, alloc: (nat, nat) -> Option<nat>, w: Weights, expert: seq<bool>, offset: seq<nat>,
                owner: seq<int>, il: nat, t: nat)
    requires Valid(m) && Placed(m, alloc, w, expert, offset, owner) && il < |m.layers| && t < |m.layers[il]|
    ensures |w.address| == |m.groups| == |owner| && |w.slots| == |w.slab| == |m.layers|
    ensures m.layers[il][t].arrayIndex < |m.arrays|
    ensures m.arrays[m.layers[il][t].arrayIndex].firstGroup == w.slots[il].first
    ensures w.slots[il].first + m.experts <= |m.groups| && w.slots[il].first < |m.groups|
  {
    assert SlotsOf(m, il, w.slots[il]);
  }

  // Two layers that share a group share all of their groups.
  lemma SharedWhole(m: Model, alloc: (nat, nat) -> Option<nat>, w: Weights, expert: seq<bool>, offset: seq<nat>,
                    owner: seq<int>, i: nat, j: nat, g: nat)
    requires Valid(m) && Numbered(m) && Placed(m, alloc, w, expert, offset, owner)
    requires i < |m.layers| && j < |m.layers| && Has(w.slots[i], m.experts, g) && Has(w.slots[j], m.experts, g)
    ensures w.slots[i].first == w.slots[j].first
  {
    hide Placed;
    FirstOf(m, alloc, w, expert, offset, owner, i, 0);
    FirstOf(m, alloc, w, expert, offset, owner, j, 0);
    var a, b := m.layers[i][0].arrayIndex, m.layers[j][0].arrayIndex;
    assert m.groups[g].expert == g - m.arrays[a].firstGroup == g - m.arrays[b].firstGroup;
  }

  // A layer's group was placed last by the last layer that shares it.
  lemma LastPlaced(m: Model, alloc: (nat, nat) -> Option<nat>, w: Weights, expert: seq<bool>, offset: seq<nat>,
                   owner: seq<int>, il: nat, e: nat)
    requires Valid(m) && Numbered(m) && Placed(m, alloc, w, expert, offset, owner)
    requires il < |m.layers| && e < m.experts
    ensures var g, last := w.slots[il].first + e, LastSharing(w.slots, il);
            g < |m.groups| && owner[g] == last && w.address[g] == w.slab[last] + Times(e, w.slots[last].stride)
  {
    assert |m.layers[il]| > 0;
    hide *;
    FirstOf(m, alloc, w, expert, offset, owner, il, 0);
    var g, last := w.slots[il].first + e, LastSharing(w.slots, il);
    AnyHas(w.slots[il], m.experts, e);
    AnyHas(w.slots[last], m.experts, e);
    OwnerHas(m, alloc, w, expert, offset, owner, il, g);
    OwnerHas(m, alloc, w, expert, offset, owner, last, g);
    SharedWhole(m, alloc, w, expert, offset, owner, il, owner[g], g);
  }

  lemma AnyHas(s: Slots, experts: nat, e: nat)
    requires e < experts
    ensures Has(s, experts, s.first + e)
  {
  }

  /** When a layer's experts are a stride apart as its arrays say: expert e's slice of an array is e strides past the
      array's address, if and only if the last layer with the same groups has the same stride or e is 0. */
  lemma SlicesStrided(m: Model, alloc: (nat, nat) -> Option<nat>, w: Weights, expert: seq<bool>, offset: seq<nat>,
                      owner: seq<int>, il: nat, t: nat, e: nat)
    requires Valid(m) && Numbered(m) && Placed(m, alloc, w, expert, offset, owner)
    requires il < |m.layers| && t < |m.layers[il]| && e < m.experts
    ensures var a := m.layers[il][t].arrayIndex;
            && a < |m.arrays| && m.arrays[a].firstGroup == w.slots[il].first && w.slots[il].first + e < |m.groups|
            && (w.address[w.slots[il].first + e] + m.arrays[a].groupOffset
                == ArrayAddress(m, w, a) + Times(e, w.slots[il].stride)
                <==> e == 0 || w.slots[LastSharing(w.slots, il)].stride == w.slots[il].stride)
  {
    hide *;
    FirstOf(m, alloc, w, expert, offset, owner, il, t);
    LastPlaced(m, alloc, w, expert, offset, owner, il, 0);
    LastPlaced(m, alloc, w, expert, offset, owner, il, e);
    TimesApart(e, w.slots[LastSharing(w.slots, il)].stride, w.slots[il].stride);
    Address(m, w, m.layers[il][t].arrayIndex);
  }

  lemma Address(m: Model, w: Weights, a: nat)
    requires Valid(m) && a < |m.arrays| && |w.address| == |m.groups|
    ensures ArrayAddress(m, w, a) == w.address[m.arrays[a].firstGroup] + m.arrays[a].groupOffset
  {
  }

  /** With disjoint expert ranges every layer is the last with its groups, so its slices are at its stride. */
  lemma ApartLast(m: Model, w: Weights, il: nat)
    requires Valid(m) && |w.slots| == |m.layers| && forall i | 0 <= i < |w.slots| :: SlotsOf(m, i, w.slots[i])
    requires forall i, j | 0 <= i < j < |m.layers| :: Disjoint(First(m, i), m.experts, First(m, j), m.experts)
    requires il < |m.layers| && 0 < m.experts
    ensures LastSharing(w.slots, il) == il
  {
    var last := LastSharing(w.slots, il);
    FirstIs(m, w.slots[il], il);
    FirstIs(m, w.slots[last], last);
    hide SlotsOf, First, LastSharing, Valid;
    var a, b := First(m, il), First(m, last);
    assert a == b;
    assert !Disjoint(a, m.experts, b, m.experts);
  }

  lemma FirstIs(m: Model, s: Slots, il: nat)
    requires Valid(m) && il < |m.layers| && SlotsOf(m, il, s)
    ensures First(m, il) == s.first
  {
    hide LeastStride;
    assert m.layers[il] != [];
  }

  /** A model of two layers whose arrays lie in the same two groups, in blocks of 17 bytes and of 18. */
  function Shared(): Model {
    Model([Group(Expert, 36, 0), Group(Expert, 36, 1)], [], [ExpertArray(0, 0), ExpertArray(0, 17)],
          [[Tensor(0, Some(17))], [Tensor(1, Some(18))]], 2, 0)
  }

  /** It can be placed, and wherever it is, the second expert of the first layer is not at that layer's stride. */
  lemma NotStrided(alloc: (nat, nat) -> Option<nat>, w: Weights, expert: seq<bool>, offset: seq<nat>, owner: seq<int>)
    requires Valid(Shared()) && Placed(Shared(), alloc, w, expert, offset, owner)
    ensures Numbered(Shared()) && Placeable(Shared())
    ensures |w.address| == 2 && |w.slots| == 2
    ensures w.address[1] != ArrayAddress(Shared(), w, 0) + Times(1, w.slots[0].stride)
  {
    var m := Shared();
    assert |m.layers| == 2 && |m.groups| == 2 && m.layers[0][0].arrayIndex == 0 && m.arrays[0].groupOffset == 0;
    assert m.experts == 2 && |m.layers[0]| == 1 && |m.layers[1]| == 1;
    hide *;
    SharedValid();
    SharedPlaceable();
    FirstOf(m, alloc, w, expert, offset, owner, 0, 0);
    FirstOf(m, alloc, w, expert, offset, owner, 1, 0);
    SlotsThere(m, alloc, w, expert, offset, owner);
    SharedSlots(w.slots[0], w.slots[1]);
    SlicesStrided(m, alloc, w, expert, offset, owner, 0, 0, 1);
  }

  lemma SlotsThere(m: Model, alloc: (nat, nat) -> Option<nat>, w: Weights, expert: seq<bool>, offset: seq<nat>,
                   owner: seq<int>)
    requires Valid(m) && Placed(m, alloc, w, expert, offset, owner)
    ensures |w.slots| == |m.layers| && forall il | 0 <= il < |w.slots| :: SlotsOf(m, il, w.slots[il])
  {
  }

  lemma SharedSlots(s: Slots, t: Slots)
    requires Valid(Shared()) && SlotsOf(Shared(), 0, s) && SlotsOf(Shared(), 1, t)
    ensures s.first == 0 == t.first && s.stride != t.stride
  {
    var m := Shared();
    assert m.layers[0][0].arrayIndex == 0 && m.layers[1][0].arrayIndex == 1;
    assert s.first == 0 == t.first;
    assert IsExpert(m.groups[0], s.stored) && IsExpert(m.groups[0], t.stored);
    hide Valid, SlotsOf, LeastStride;
    StridesDiffer(m.layers[0], m.layers[1], s.stride, t.stride);
  }

  lemma SharedValid()
    ensures Valid(Shared()) && Numbered(Shared())
  {
  }

  lemma SharedUniform()
    requires Valid(Shared())
    ensures var m := Shared(); First(m, 0) == 0 == First(m, 1) && Uniform(m, m.layers[0]) && Uniform(m, m.layers[1])
  {
    var m := Shared();
    assert m.layers[0][0].arrayIndex == 0 && m.layers[1][0].arrayIndex == 1;
  }

  lemma SharedPlaceable()
    requires Valid(Shared())
    ensures Placeable(Shared())
  {
    var m := Shared();
    assert |m.layers| == 2 && |m.groups| == 2 && m.resources == [] && m.experts == 2;
    hide *;
    SharedUniform();
    TwoLayersPlaceable(m);
  }

  // Two layers on the same two groups and nothing else.
  lemma TwoLayersPlaceable(m: Model)
    requires Valid(m) && |m.layers| == 2 && |m.groups| == 2 && m.resources == [] && m.experts == 2
    requires First(m, 0) == 0 == First(m, 1) && Uniform(m, m.layers[0]) && Uniform(m, m.layers[1])
    ensures Placeable(m)
  {
    hide Valid, First, Uniform;
    assert Bound(m, 0) && Bound(m, 1) && !Bound(m, 2);
  }

  lemma StridesDiffer(a: seq<Tensor>, b: seq<Tensor>, s: nat, t: nat)
    requires a == [Tensor(0, Some(17))] && b == [Tensor(1, Some(18))]
    requires LeastStride(a, 36, s) && LeastStride(b, 36, t)
    ensures s != t
  {
    assert 144 == Times(9, 16) == Times(8, 18);
    assert Divides(16, 144) && Divides(18, 144);
    assert Fits(b, 1, 144);
    assert a[0].block == Some(17);
    var k: nat :| s == Times(k, 16);
    var l: nat :| s == Times(l, 17);
  }

  // ---------------------------------------------------------------------------- the method

  /** Every resource but the table's has an address inside an allocation, no two groups overlap, the dense groups are
      aligned, and the slabs hold the experts' bytes and the padding. */
  ghost predicate Good(m: Model, w: Weights, owner: seq<int>)
    requires Valid(m)
  {
    && |w.address| == |m.groups| == |owner|
    && (forall r | 0 <= r < |m.resources| && r != m.table ::
          m.resources[r].group != w.tableGroup && InRegion(m, w, owner[m.resources[r].group], m.resources[r].group))
    && (forall g, h | 0 <= g < |m.groups| && 0 <= h < |m.groups| && g != h && g != w.tableGroup && h != w.tableGroup ::
          Disjoint(w.address[g], m.groups[g].stored, w.address[h], m.groups[h].stored))
    && (forall g | 0 <= g < |m.groups| && g != w.tableGroup && owner[g] < 0 :: Divides(256, w.address[g]))
    && w.slabBytes == StoredBytes(w.slots, m.experts) + w.padding
  }

  lemma PlacedGood(m: Model, alloc: (nat, nat) -> Option<nat>, w: Weights, expert: seq<bool>, offset: seq<nat>,
                   owner: seq<int>)
    requires Valid(m) && ValidAllocator(alloc) && Placed(m, alloc, w, expert, offset, owner)
    requires forall r | 0 <= r < |m.resources| && r != m.table :: m.resources[r].group != w.tableGroup
    requires w.slabBytes == SlabBytes(w.slots, m.experts) && w.padding == Padding(w.slots, m.experts)
    ensures Good(m, w, owner)
  {
    SlabConserved(w.slots, m.experts);
    forall g | 0 <= g < |m.groups| && g != w.tableGroup
      ensures InRegion(m, w, owner[g], g)
      ensures owner[g] < 0 ==> Divides(256, w.address[g])
    {
      GroupInRegion(m, alloc, w, expert, offset, owner, g);
      if owner[g] < 0 {
        DenseAligned(m, alloc, w, expert, offset, owner, g);
      }
    }
    forall g, h | 0 <= g < |m.groups| && 0 <= h < |m.groups| && g != h && g != w.tableGroup && h != w.tableGroup
      ensures Disjoint(w.address[g], m.groups[g].stored, w.address[h], m.groups[h].stored)
    {
      GroupsApart(m, alloc, w, expert, offset, owner, g, h);
    }
    hide Placed, ValidAllocator, InRegion;
  }

  lemma DenseAligned(m: Model, alloc: (nat, nat) -> Option<nat>, w: Weights, expert: seq<bool>, offset: seq<nat>,
                     owner: seq<int>, g: nat)
    requires Valid(m) && ValidAllocator(alloc) && Placed(m, alloc, w, expert, offset, owner)
    requires g < |m.groups| && g != w.tableGroup && owner[g] < 0
    ensures Divides(256, w.address[g])
  {
    GroupInRegion(m, alloc, w, expert, offset, owner, g);
    LaidInside(m.groups, expert, w.tableGroup, offset, w.denseBytes, g);
    assert alloc(0, w.denseBytes) == Some(w.dense);
    assert Divides(256, w.dense);
    assert PlacedAt(w.slots, |w.slots|, m.experts, w.slab, w.dense + offset[g], w.address[g], owner[g], g);
    DividesSum(256, w.dense, offset[g]);
  }

  /** Refused when another resource is in the table's group. */
  method TableAlone(m: Model) returns (ok: bool)
    requires Valid(m)
    ensures ok <==> forall r | 0 <= r < |m.resources| && r != m.table :: m.resources[r].group != TableGroup(m)
  {
    for r := 0 to |m.resources|
      invariant forall q | 0 <= q < r && q != m.table :: m.resources[q].group != TableGroup(m)
    {
      if r != m.table && m.resources[r].group == TableGroup(m) { return false; }
    }
    return true;
  }

  /** What is decided before anything is allocated. */
  datatype Arrangement = Arrangement(slots: seq<Slots>, padding: int, expert: seq<bool>, offset: seq<nat>, denseBytes: nat)

  ghost predicate Arranged(m: Model, a: Arrangement)
    requires Valid(m)
  {
    var table := TableGroup(m);
    && |a.slots| == |m.layers| && |a.expert| == |a.offset| == |m.groups|
    && (forall il | 0 <= il < |m.layers| :: SlotsOf(m, il, a.slots[il]) && a.slots[il].first + m.experts <= |m.groups|)
    && AllFirstStored(m, a.slots) && a.padding == Padding(a.slots, m.experts)
    && (forall g | 0 <= g < |m.groups| :: a.expert[g] <==> Owned(a.slots, m.experts, g))
    && Laid(m.groups, a.expert, table, a.offset, |m.groups|, a.denseBytes)
    && a.denseBytes == DenseBytes(m.groups, a.expert, table, |m.groups|)
  }

  // What is asked of the allocator does not depend on how it was arranged.
  lemma ArrangedOnce(m: Model, a: Arrangement, b: Arrangement)
    requires Valid(m) && Arranged(m, a) && Arranged(m, b)
    ensures a.slots == b.slots && a.expert == b.expert && a.denseBytes == b.denseBytes
  {
    hide Fits, Owned, Laid, DenseBytes;
    forall il | 0 <= il < |m.layers| ensures a.slots[il] == b.slots[il] {
      assert SlotsOf(m, il, a.slots[il]) && SlotsOf(m, il, b.slots[il]);
      assert FirstStored(m, a.slots[il]) && FirstStored(m, b.slots[il]);
      assert m.arrays[m.layers[il][0].arrayIndex].firstGroup == a.slots[il].first;
    }
    assert a.slots == b.slots;
  }

  /** The allocator refuses the dense region or a slab. */
  ghost predicate Refused(m: Model, alloc: (nat, nat) -> Option<nat>)
    requires Valid(m)
  {
    exists a :: Arranged(m, a) && (alloc(0, a.denseBytes).None? || SlabRefused(a.slots, m.experts, alloc))
  }

  /** The strides and the dense layout; refused exactly when the model cannot be placed. */
  method Arrange(m: Model) returns (r: Result<Arrangement>)
    requires Valid(m)
    ensures r.Ok? <==> Placeable(m)
    ensures r.Ok? ==> Arranged(m, r.value)
  {
    hide Owned, Bound, SlotsOf, Uniform, Laid, AllFirstStored, DenseBytes, Valid;
    var alone := TableAlone(m);
    if !alone { return Err("a resource shares the token table's group"); }
    var all := AllSlots(m);
    if all.Err? { return Err(all.error); }
    var (slots, padding) := all.value;
    var table := TableGroup(m);
    AllBound(m, slots);
    var expert := MarkExperts(|m.groups|, slots, m.experts);
    if table < |m.groups| && expert[table] { return Err("the token table's group is an expert group"); }
    var dense := LayDense(m.groups, expert, table);
    if dense.Err? { return Err(dense.error); }
    return Ok(Arrangement(slots, padding, expert, dense.value.0, dense.value.1));
  }

  /** Places every group of a model: a good placement whose strides are the least. Refused exactly when the model cannot
      be placed, or the allocator refuses what it is asked for. */
  method PlaceWeights(m: Model, alloc: (nat, nat) -> Option<nat>) returns (r: Result<Weights>, ghost owner: seq<int>)
    requires Valid(m) && ValidAllocator(alloc)
    ensures r.Ok? <==> Placeable(m) && !Refused(m, alloc)
    ensures r.Ok? ==> Good(m, r.value, owner) && r.value.tableGroup == TableGroup(m)
    ensures r.Ok? ==>
              r.value.tableGroup == if m.table < |m.resources| then m.resources[m.table].group else |m.groups|
    ensures r.Ok? ==> exists expert, offset :: Placed(m, alloc, r.value, expert, offset, owner)
  {
    hide Owned, Bound, SlotsOf, Uniform, Laid, PlacedAt, Good, ValidAllocator, Refused, SlabRefused, DenseBytes, AllFirstStored;
    hide Valid;
    owner := [];
    var arranged := Arrange(m);
    if arranged.Err? { return Err(arranged.error), owner; }
    var a := arranged.value;
    RefusedIff(m, alloc, a);
    var base := alloc(0, a.denseBytes);
    if base.None? { return Err("the dense weights"), owner; }
    var places := seq(|m.groups|, g requires 0 <= g < |a.offset| => base.value + a.offset[g]);
    var slabs;
    slabs, owner := PlaceSlabs(a.slots, m.experts, places, alloc);
    if slabs.Err? { return Err(slabs.error), owner; }
    var (address, slab, slabBytes) := slabs.value;
    var w := Weights(base.value, a.denseBytes, address, slab, a.slots, slabBytes, a.padding, TableGroup(m));
    assert Placed(m, alloc, w, a.expert, a.offset, owner);
    PlacedGood(m, alloc, w, a.expert, a.offset, owner);
    return Ok(w), owner;
  }

  lemma RefusedIff(m: Model, alloc: (nat, nat) -> Option<nat>, a: Arrangement)
    requires Valid(m) && Arranged(m, a)
    ensures Refused(m, alloc) <==> alloc(0, a.denseBytes).None? || SlabRefused(a.slots, m.experts, alloc)
  {
    hide Arranged, SlabRefused;
    if Refused(m, alloc) {
      var b :| Arranged(m, b) && (alloc(0, b.denseBytes).None? || SlabRefused(b.slots, m.experts, alloc));
      ArrangedOnce(m, a, b);
    }
  }
}
