/** A model's weights placed and then loaded (benchmarks/dsv4_exec.cc, PlaceWeights and LoadWeights). */
module PlacedAndLoaded {
  import opened Results
  import opened ReadPlan
  import Divisors
  import P = Placement
  import S = StagedLoading

  /** The model is of the artifact's groups. */
  ghost predicate Describes(m: P.Model, a: S.Artifact) {
    && |m.groups| == |a.layout.groups|
    && forall g | 0 <= g < |m.groups| :: m.groups[g].stored == a.layout.groups[g].stored
  }

  // A good placement is one that loading may use.
  lemma GoodPlaced(m: P.Model, a: S.Artifact, w: P.Weights, owner: seq<int>)
    requires P.Valid(m) && Describes(m, a) && P.Good(m, w, owner)
    ensures S.Placed(a, w.address, w.tableGroup)
  {
  }

  /** Places every group and loads the artifact. Refused if and only if the model cannot be placed, the allocator refuses
      or a planned run is not read through; otherwise, for every interleaving of host and device, every group but the table's is on the device at
      its own address, and the table on the host. */
  method PlaceAndLoad(m: P.Model, a: S.Artifact, alloc: (nat, nat) -> Option<nat>, limits: ReadLimits,
                      device: nat -> nat, preads: (nat, nat) -> int, memory: map<nat, S.Byte>)
    returns (r: Result<(P.Weights, map<nat, S.Byte>, seq<S.Byte>)>, ghost owner: seq<int>, ghost runs: seq<ReadRun>)
    requires P.Valid(m) && P.ValidAllocator(alloc) && S.ValidArtifact(a) && Describes(m, a)
    requires CHUNK_BYTES <= limits.maxRun
    ensures r.Ok? <==> P.Placeable(m) && !P.Refused(m, alloc) && S.AllRead(preads, runs)
    ensures P.Placeable(m) && !P.Refused(m, alloc) ==>
              Planned(a.layout, runs, limits) && forall k :: k in ChunksOf(runs) <==> S.IsKey(a, k)
    ensures r.Ok? ==>
              && P.Placeable(m) && r.value.0.tableGroup == P.TableGroup(m)
              && (m.table < |m.resources| ==> r.value.0.tableGroup == m.resources[m.table].group)
              && S.Complete(a, r.value.0.address, P.TableGroup(m), r.value.1, r.value.2)
    ensures r.Ok? ==>
              && P.Good(m, r.value.0, owner)
              && (exists expert, offset :: P.Placed(m, alloc, r.value.0, expert, offset, owner))
  {
    hide P.Good, P.Refused, P.Placeable, S.Complete, S.ValidArtifact, P.ValidAllocator, P.Placed, P.Valid, S.AllRead, Planned;
    runs := [];
    var placed;
    placed, owner := P.PlaceWeights(m, alloc);
    if placed.Err? { return Err(placed.error), owner, runs; }
    var w := placed.value;
    GoodPlaced(m, a, w, owner);
    var blank := seq(if w.tableGroup < |m.groups| then m.groups[w.tableGroup].stored else 0, _ => 0);
    var loaded;
    loaded, runs := S.LoadWeights(a, w.address, w.tableGroup, limits, device, preads, memory, blank);
    if loaded.Err? { return Err(loaded.error), owner, runs; }
    return Ok((w, loaded.value.0, loaded.value.1)), owner, runs;
  }

  /** So a tensor that is not the table's is read where its address says: any bytes of its group from its offset on. */
  lemma ResourceLoaded(m: P.Model, a: S.Artifact, w: P.Weights, memory: map<nat, S.Byte>, table: seq<S.Byte>, r: nat, n: nat)
    requires P.Valid(m) && Describes(m, a) && r < |m.resources| && m.resources[r].group != w.tableGroup
    requires S.Complete(a, w.address, w.tableGroup, memory, table)
    requires m.resources[r].offset + n <= m.groups[m.resources[r].group].stored
    ensures S.ValidGroup(a, m.resources[r].group)
    ensures var g, offset := m.resources[r].group, m.resources[r].offset;
            S.Holds(memory, w.address[g] + offset, S.GroupBytes(a, g)[offset..offset + n])
  {
    GroupHeld(m, a, w, memory, table, m.resources[r].group, m.resources[r].offset, n);
  }

  // Any bytes of a group that is not the table's.
  lemma GroupHeld(m: P.Model, a: S.Artifact, w: P.Weights, memory: map<nat, S.Byte>, table: seq<S.Byte>, g: nat, offset: nat,
                  n: nat)
    requires Describes(m, a) && S.Complete(a, w.address, w.tableGroup, memory, table)
    requires g < |m.groups| && g != w.tableGroup && offset + n <= m.groups[g].stored
    ensures g < |w.address| && S.ValidGroup(a, g)
    ensures S.Holds(memory, w.address[g] + offset, S.GroupBytes(a, g)[offset..offset + n])
  {
    PartHeld(memory, w.address[g], S.GroupBytes(a, g), offset, n);
  }

  lemma PartHeld(memory: map<nat, S.Byte>, address: nat, bytes: seq<S.Byte>, offset: nat, n: nat)
    requires S.Holds(memory, address, bytes) && offset + n <= |bytes|
    ensures S.Holds(memory, address + offset, bytes[offset..offset + n])
  {
  }

  /** And an expert's slice where its array's address and the layer's stride say, wherever the last layer with the same
      groups has the same stride. */
  lemma SliceLoaded(m: P.Model, a: S.Artifact, alloc: (nat, nat) -> Option<nat>, w: P.Weights, expert: seq<bool>,
                    offset: seq<nat>, owner: seq<int>, memory: map<nat, S.Byte>, table: seq<S.Byte>, il: nat, t: nat, e: nat,
                    n: nat)
    requires P.Valid(m) && P.Numbered(m) && P.Placed(m, alloc, w, expert, offset, owner) && Describes(m, a)
    requires il < |m.layers| && t < |m.layers[il]| && e < m.experts
    requires e == 0 || w.slots[P.LastSharing(w.slots, il)].stride == w.slots[il].stride
    requires P.Placeable(m) && w.tableGroup == P.TableGroup(m) && S.Complete(a, w.address, w.tableGroup, memory, table)
    requires m.layers[il][t].arrayIndex < |m.arrays| && w.slots[il].first + e < |m.groups|
    requires m.arrays[m.layers[il][t].arrayIndex].groupOffset + n <= m.groups[w.slots[il].first + e].stored
    ensures var index := m.layers[il][t].arrayIndex;
            var g, from := w.slots[il].first + e, m.arrays[index].groupOffset;
            && S.ValidGroup(a, g) && 0 <= P.ArrayAddress(m, w, index) + Divisors.Times(e, w.slots[il].stride)
            && S.Holds(memory, P.ArrayAddress(m, w, index) + Divisors.Times(e, w.slots[il].stride),
                       S.GroupBytes(a, g)[from..from + n])
  {
    hide *;
    P.FirstOf(m, alloc, w, expert, offset, owner, il, t);
    P.SlicesStrided(m, alloc, w, expert, offset, owner, il, t, e);
    NotTheTable(m, alloc, w, expert, offset, owner, il, e);
    GroupHeld(m, a, w, memory, table, w.slots[il].first + e, m.arrays[m.layers[il][t].arrayIndex].groupOffset, n);
  }

  lemma NotTheTable(m: P.Model, alloc: (nat, nat) -> Option<nat>, w: P.Weights, expert: seq<bool>, offset: seq<nat>,
                    owner: seq<int>, il: nat, e: nat)
    requires P.Valid(m) && P.Placed(m, alloc, w, expert, offset, owner) && P.Placeable(m)
    requires il < |m.layers| && e < m.experts
    ensures w.slots[il].first + e != P.TableGroup(m)
  {
    P.FirstOf(m, alloc, w, expert, offset, owner, il, 0);
    hide P.Placed, P.Uniform;
    assert P.First(m, il) == w.slots[il].first;
  }
}
