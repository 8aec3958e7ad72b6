/** Weights that are evicted, paged back in at the other of two places, and addressed there (benchmarks/exl3_runner.cc,
    ReserveWeights, Place, WeightAddress, MapWeights and Restore). */
module Relocation {
  import opened Collections
  import opened Results
  import opened Spans

  /** 2 MiB. */
  const EXTENT: nat := 0x20_0000

  /** A tensor the program reads: in a group, at an offset. */
  datatype Resource = Resource(group: nat, offset: nat, bytes: nat)

  /** The chunks of the groups before one. */
  function Before(chunks: seq<nat>, g: nat): nat
    requires g <= |chunks|
  {
    if g == 0 then 0 else Before(chunks, g - 1) + chunks[g - 1]
  }

  lemma BeforeNext(chunks: seq<nat>, g: nat)
    requires g < |chunks|
    ensures Before(chunks, g + 1) == Before(chunks, g) + chunks[g]
  {
  }

  lemma {:induction false} BeforeGrows(chunks: seq<nat>, g: nat, h: nat)
    requires g <= h <= |chunks|
    ensures Before(chunks, g) <= Before(chunks, h)
    decreases h
  {
    if g < h { BeforeGrows(chunks, g, h - 1); }
  }

  /** The weights: groups of whole chunks, and tensors within them. */
  datatype Artifact = Artifact(chunks: seq<nat>, resources: seq<Resource>) {
    ghost predicate Valid() {
      forall i | 0 <= i < |resources| ::
        && 0 < resources[i].bytes && resources[i].group < |chunks|
        && resources[i].offset + resources[i].bytes <= chunks[resources[i].group] * EXTENT
    }

    function Count(): nat {
      Before(chunks, |chunks|)
    }
  }

  /** What the node makes of one restore: whether it evicts, which sources it refuses, and whether it loads. */
  datatype Turn = Turn(evaluation: nat, evicts: bool, refused: nat -> bool, loads: bool)

  /** The place after a restore: the other one at every second evaluation, if the weights are to move. */
  function PlaceAfter(place: nat, relocate: bool, evaluation: nat): (next: nat)
    requires place < 2
    ensures next < 2
  {
    if relocate && evaluation % 2 == 0 then 1 - place else place
  }

  /** Where the weights lie: the region of each group from the base of either place, and each chunk's extent. */
  datatype Layout = Layout(regions: seq<nat>, bytes: nat, extents: seq<seq<Extent>>, all: seq<Extent>)

  // A chunk of a group is the chunk of all that many after the groups before it.
  ghost predicate ChunkAt(chunks: seq<nat>, extents: seq<seq<Extent>>, all: seq<Extent>, g: nat, c: nat)
    requires g < |chunks|
  {
    && g < |extents| && c < |extents[g]| && Before(chunks, g) + c < |all|
    && extents[g][c] == all[Before(chunks, g) + c]
  }

  // The first groups' extents are the first of all.
  ghost predicate Cataloged(chunks: seq<nat>, extents: seq<seq<Extent>>, all: seq<Extent>, n: nat)
    requires n <= |chunks|
  {
    && n <= |extents| && (forall g | 0 <= g < n :: |extents[g]| == chunks[g])
    && (forall g: nat, c: nat {:trigger ChunkAt(chunks, extents, all, g, c)} | g < n && c < chunks[g] ::
          ChunkAt(chunks, extents, all, g, c))
  }

  ghost predicate LaidOut(a: Artifact, l: Layout) {
    && |l.regions| == |l.extents| == |a.chunks| && |l.all| == a.Count() && l.bytes == a.Count() * EXTENT
    && (forall g | 0 <= g < |a.chunks| :: l.regions[g] == Before(a.chunks, g) * EXTENT)
    && Cataloged(a.chunks, l.extents, l.all, |a.chunks|)
  }

  /** One chunk of the weights at a place. */
  function ChunkSpan(l: Layout, base: nat, owner: int, d: nat): Span
    requires d < |l.all|
  {
    Span(base + d * EXTENT, EXTENT, l.all[d], Weights, true, owner)
  }

  ghost predicate IsChunk(l: Layout, base: nat, owner: int, s: Span) {
    exists d: nat :: d < |l.all| && s == ChunkSpan(l, base, owner, d)
  }

  /** The spans a new place replaces: the owner's device weights backed by these extents. */
  predicate Replaced(l: Layout, owner: int, s: Span) {
    s.owner == owner && s.kind == Weights && s.device && s.extent in l.all
  }

  /** Two places, apart from each other's use and from every span that is not the weights'. */
  ghost predicate Outside(s: Span, base: nat, bytes: nat) {
    0 < s.size && (s.base + s.size <= base || base + bytes <= s.base)
  }

  lemma ChunkApart(l: Layout, base: nat, owner: int, d: nat, e: nat)
    requires d < e < |l.all|
    ensures Apart(ChunkSpan(l, base, owner, d), ChunkSpan(l, base, owner, e))
  {
  }

  lemma ChunkInside(l: Layout, base: nat, owner: int, d: nat, s: Span)
    requires d < |l.all| && l.bytes == |l.all| * EXTENT && Outside(s, base, l.bytes)
    ensures Apart(s, ChunkSpan(l, base, owner, d))
  {
  }

  /** The first chunks of the weights at a place. */
  function ChunkSpans(l: Layout, base: nat, owner: int, n: nat): (spans: seq<Span>)
    requires n <= |l.all|
    ensures |spans| == n && forall d | 0 <= d < n :: spans[d] == ChunkSpan(l, base, owner, d)
  {
    if n == 0 then [] else ChunkSpans(l, base, owner, n - 1) + [ChunkSpan(l, base, owner, n - 1)]
  }

  // Spans outside a place and the weights' at it are apart.
  lemma JoinedApart(l: Layout, base: nat, owner: int, kept: seq<Span>, n: nat)
    requires AllApart(kept) && n <= |l.all| && l.bytes == |l.all| * EXTENT
    requires forall i | 0 <= i < |kept| :: Outside(kept[i], base, l.bytes)
    ensures AllApart(kept + ChunkSpans(l, base, owner, n))
  {
    var chunks := ChunkSpans(l, base, owner, n);
    var spans := kept + chunks;
    forall i, j | 0 <= i < j < |spans| ensures Apart(spans[i], spans[j]) {
      if |kept| <= j {
        var e := j - |kept|;
        assert spans[j] == ChunkSpan(l, base, owner, e);
        if i < |kept| {
          ChunkInside(l, base, owner, e, kept[i]);
        } else {
          assert spans[i] == ChunkSpan(l, base, owner, i - |kept|);
          ChunkApart(l, base, owner, i - |kept|, e);
        }
      }
    }
  }

  lemma JoinedMembers(l: Layout, base: nat, owner: int, kept: seq<Span>, s: Span)
    ensures s in kept + ChunkSpans(l, base, owner, |l.all|) <==> s in kept || IsChunk(l, base, owner, s)
  {
    var chunks := ChunkSpans(l, base, owner, |l.all|);
    if s in chunks {
      var d :| 0 <= d < |chunks| && chunks[d] == s;
      assert s == ChunkSpan(l, base, owner, d);
    }
    if IsChunk(l, base, owner, s) {
      var d: nat :| d < |l.all| && s == ChunkSpan(l, base, owner, d);
      assert chunks[d] == s;
    }
  }

  /** Lays the groups out one after another in whole chunks, and catalogs an extent for each chunk. */
  method ReserveWeights(a: Artifact, first: Extent) returns (l: Layout)
    ensures LaidOut(a, l) && forall d | 0 <= d < |l.all| :: l.all[d] == first + d
  {
    hide Before;
    var regions, bytes := [], 0;
    BeforeZero(a.chunks);
    for g := 0 to |a.chunks|
      invariant |regions| == g && bytes == Before(a.chunks, g) * EXTENT
      invariant forall h | 0 <= h < g :: regions[h] == Before(a.chunks, h) * EXTENT
    {
      BeforeNext(a.chunks, g);
      regions := regions + [bytes];
      bytes := bytes + a.chunks[g] * EXTENT;
    }
    var extents, all := CatalogWeights(a, first);
    l := Layout(regions, bytes, extents, all);
  }

  lemma BeforeZero(chunks: seq<nat>)
    ensures Before(chunks, 0) == 0
  {
  }

  lemma CatalogedMore(chunks: seq<nat>, extents: seq<seq<Extent>>, all: seq<Extent>, g: nat, mine: seq<Extent>)
    requires g < |chunks| && g == |extents| && Cataloged(chunks, extents, all, g) && |all| == Before(chunks, g)
    requires |mine| == chunks[g]
    ensures Cataloged(chunks, extents + [mine], all + mine, g + 1)
  {
    hide Before;
    var more, now := extents + [mine], all + mine;
    forall h: nat, c: nat {:trigger ChunkAt(chunks, more, now, h, c)} | h < g + 1 && c < chunks[h]
      ensures ChunkAt(chunks, more, now, h, c)
    {
      if h < g { assert ChunkAt(chunks, extents, all, h, c); }
    }
  }

  method CatalogWeights(a: Artifact, first: Extent) returns (extents: seq<seq<Extent>>, all: seq<Extent>)
    ensures |extents| == |a.chunks| && |all| == a.Count() && Cataloged(a.chunks, extents, all, |a.chunks|)
    ensures forall d | 0 <= d < |all| :: all[d] == first + d
  {
    hide Before, Cataloged;
    extents, all := [], [];
    NoneCataloged(a.chunks);
    for g := 0 to |a.chunks|
      invariant |extents| == g && |all| == Before(a.chunks, g) && Cataloged(a.chunks, extents, all, g)
      invariant forall d | 0 <= d < |all| :: all[d] == first + d
    {
      var mine: seq<Extent> := [];
      ghost var before := all;
      for c := 0 to a.chunks[g]
        invariant |mine| == c && all == before + mine
        invariant forall d | 0 <= d < |all| :: all[d] == first + d
      {
        var extent := first + |all|;
        mine := mine + [extent];
        all := all + [extent];
      }
      CatalogedMore(a.chunks, extents, before, g, mine);
      BeforeNext(a.chunks, g);
      extents := extents + [mine];
    }
  }

  lemma NoneCataloged(chunks: seq<nat>)
    ensures Before(chunks, 0) == 0 && Cataloged(chunks, [], [], 0)
  {
  }

  /** A range the program uses that is not the weights': the cache, scratch, a norm or a table. */
  datatype Range = Range(address: nat, bytes: nat, kind: MemoryClass)

  class Runner {
    const artifact: Artifact
    const owner: int
    const fixed: seq<Range>
    const bases: seq<nat>
    var layout: Layout
    var place: nat
    var spans: seq<Span>
    var resident: set<Extent>
    // The address the program reads each tensor at.
    var addresses: seq<nat>
    // The spans that are not the weights'.
    ghost const others: seq<Span>

    ghost predicate Laid()
      reads this`layout
    {
      && artifact.Valid() && LaidOut(artifact, layout) && |bases| == 2
      && AllApart(others)
      && forall i | 0 <= i < |others| :: !Replaced(layout, owner, others[i]) && Outside(others[i], bases[0], layout.bytes)
                                         && Outside(others[i], bases[1], layout.bytes)
    }

    /** The spans are the others and the weights' at the current place, apart and in order. */
    ghost predicate Valid()
      reads this`layout, this`place, this`spans
    {
      && Laid() && place < 2 && Sorted(spans) && AllApart(spans)
      && forall s :: s in spans <==> s in others || IsChunk(layout, bases[place], owner, s)
    }

    function WeightAddress(i: nat): nat
      requires i < |artifact.resources| && place < |bases| && artifact.resources[i].group < |layout.regions|
      reads this`layout, this`place
    {
      var r := artifact.resources[i];
      bases[place] + layout.regions[r.group] + r.offset
    }

    /** Ready for a phase: every weight is resident, and the program reads each tensor where it is now. */
    ghost predicate Ready()
      reads this
    {
      Valid() && (forall e | e in layout.all :: e in resident) && Addressed()
    }

    ghost predicate Addressed()
      requires Valid()
      reads this`layout, this`place, this`spans, this`addresses
    {
      |addresses| == |artifact.resources| && forall i: nat | i < |addresses| :: addresses[i] == Address(i)
    }

    // The same, where the weights are placed.
    function Address(i: nat): nat
      requires Valid() && i < |artifact.resources|
      reads this`layout, this`place, this`spans
    {
      WeightAddress(i)
    }

    // Every address of the current place is backed.
    lemma BackedAt(x: int)
      requires Ready() && bases[place] <= x < bases[place] + layout.bytes
      ensures Backed(spans, resident, owner, Weights, x)
    {
      var base := bases[place];
      var d := (x - base) / EXTENT;
      assert d < |layout.all|;
      var s := ChunkSpan(layout, base, owner, d);
      assert Contains(s, x);
      hide AllApart, Sorted, LaidOut;
      assert IsChunk(layout, base, owner, s);
      assert s in spans;
      assert layout.all[d] in layout.all;
      var k :| 0 <= k < |spans| && spans[k] == s;
    }

    /** No address is stale: each tensor's range lies in resident memory of the weights' class, in the spans of the
        current place. */
    lemma NotStale(i: nat)
      requires Ready() && i < |addresses|
      ensures RangeBacked(spans, resident, owner, Weights, addresses[i], artifact.resources[i].bytes)
      ensures bases[place] <= addresses[i] && addresses[i] + artifact.resources[i].bytes <= bases[place] + layout.bytes
    {
      var r := artifact.resources[i];
      WithinRegion(artifact, layout, i);
      assert addresses[i] == Address(i);
      hide Ready;
      forall x | addresses[i] <= x < addresses[i] + r.bytes ensures Backed(spans, resident, owner, Weights, x) {
        BackedAt(x);
      }
    }
  
    /** The program reads a tensor's own bytes: the span that holds the address of byte `x` of tensor `i` is of the extent
        cataloged for the chunk of the tensor's group that holds the byte, as far into the span as the byte into the
        chunk. */
    lemma ReadsOwn(i: nat, x: nat, k: nat)
      requires Ready() && i < |addresses| && x < artifact.resources[i].bytes && k < |spans|
      ensures (exists j :: 0 <= j < |spans| && Contains(spans[j], addresses[i] + x))
      ensures var r := artifact.resources[i];
              && r.group < |layout.extents| && (r.offset + x) / EXTENT < |layout.extents[r.group]|
              && (Contains(spans[k], addresses[i] + x) ==>
                    && spans[k].extent == layout.extents[r.group][(r.offset + x) / EXTENT]
                    && addresses[i] + x - spans[k].base == (r.offset + x) % EXTENT
                    && spans[k].extent in resident && Usable(spans[k], resident, owner) && spans[k].kind == Weights)
    {
      var r := artifact.resources[i];
      var d := ChunkOf(artifact, layout, bases[place], i, x);
      var s := ChunkSpan(layout, bases[place], owner, d);
      assert addresses[i] == Address(i);
      assert layout.all[d] in layout.all;
      hide LaidOut, Sorted;
      assert Contains(s, addresses[i] + x);
      assert IsChunk(layout, bases[place], owner, s) && s in spans;
      var j :| 0 <= j < |spans| && spans[j] == s;
      if Contains(spans[k], addresses[i] + x) { OneSpan(spans, j, k, addresses[i] + x); }
    }

    /** Every range that is not the weights' lies in resident memory of its class that is not the weights'. */
    ghost predicate Standing()
      reads this`layout, this`resident
    {
      forall i | 0 <= i < |fixed| ::
        RangeBacked(others, resident - Members(layout.all), owner, fixed[i].kind, fixed[i].address, fixed[i].bytes)
    }

    // And so lies in the spans wherever the weights are.
    lemma StillBacked(i: nat)
      requires Valid() && Standing() && i < |fixed|
      ensures RangeBacked(spans, resident, owner, fixed[i].kind, fixed[i].address, fixed[i].bytes)
    {
      hide AllApart, Sorted, Laid, IsChunk, Members;
      var f, still := fixed[i], resident - Members(layout.all);
      forall x | f.address <= x < f.address + f.bytes ensures Backed(spans, resident, owner, f.kind, x) {
        assert Backed(others, still, owner, f.kind, x);
        var k :| && 0 <= k < |others| && others[k].base <= x < others[k].base + others[k].size && others[k].kind == f.kind
                 && others[k].device && (others[k].owner == owner || others[k].owner == SHARED) && others[k].extent in still;
        assert others[k] in others && others[k] in spans;
        var n :| 0 <= n < |spans| && spans[n] == others[k];
      }
    }

    /** What any number of placements keep: the spans not replaced are the others, and all are apart. */
    ghost predicate Kept()
      reads this`layout, this`spans
    {
      Laid() && AllApart(spans) && forall s :: s in others <==> s in spans && !Replaced(layout, owner, s)
    }

    constructor (artifact: Artifact, owner: int, bases: seq<nat>, others: seq<Span>, first: Extent, fixed: seq<Range>,
                 resident: set<Extent>)
      requires artifact.Valid() && |bases| == 2 && AllApart(others)
      requires forall i | 0 <= i < |others| ::
                 && !(first <= others[i].extent < first + artifact.Count())
                 && Outside(others[i], bases[0], artifact.Count() * EXTENT) && Outside(others[i], bases[1], artifact.Count() * EXTENT)
      requires forall e | e in resident :: !(first <= e < first + artifact.Count())
      requires forall i | 0 <= i < |fixed| ::
                 RangeBacked(others, resident, owner, fixed[i].kind, fixed[i].address, fixed[i].bytes)
      ensures this.artifact == artifact && this.owner == owner && this.bases == bases && this.others == others
      ensures this.fixed == fixed && Kept() && Standing()
    {
      this.artifact, this.owner, this.bases, this.others, this.fixed := artifact, owner, bases, others, fixed;
      var l := ReserveWeights(artifact, first);
      layout, place, spans, this.resident, addresses := l, 0, others, resident, [];
      new;
      assert resident - Members(layout.all) == resident by {
        assert forall e | e in layout.all :: first <= e < first + artifact.Count();
      }
      forall i | 0 <= i < |others| ensures !Replaced(layout, owner, others[i]) {
        assert forall e | e in layout.all :: first <= e;
      }
    }

    // One group's chunks at a place.
    method PlaceGroup(base: nat, g: nat, refused: nat -> bool, ghost kept: seq<Span>) returns (ok: bool, ghost n: nat)
      requires LaidOut(artifact, layout) && g < |artifact.chunks| && Before(artifact.chunks, g) <= |layout.all|
      requires spans == kept + ChunkSpans(layout, base, owner, Before(artifact.chunks, g))
      modifies this`spans
      ensures n <= |layout.all| && spans == kept + ChunkSpans(layout, base, owner, n)
      ensures if ok then n == Before(artifact.chunks, g + 1) else n < |layout.all| && refused(n)
    {
      hide Before, ChunkSpans;
      n := Before(artifact.chunks, g);
      BeforeNext(artifact.chunks, g);
      BeforeGrows(artifact.chunks, g + 1, |artifact.chunks|);
      for c := 0 to artifact.chunks[g]
        invariant n == Before(artifact.chunks, g) + c
        invariant spans == kept + ChunkSpans(layout, base, owner, n)
      {
        var offset := layout.regions[g] + c * EXTENT;
        SpansNext(layout, base, owner, n, kept);
        assert ChunkAt(artifact.chunks, layout.extents, layout.all, g, c);
        if refused(Index(g, c)) { return false, n; }
        spans := spans + [Span(base + offset, EXTENT, layout.extents[g][c], Weights, true, owner)];
        n := n + 1;
      }
      return true, n;
    }

    // A chunk's number among all.
    function Index(g: nat, c: nat): nat
      requires g <= |artifact.chunks|
    {
      Before(artifact.chunks, g) + c
    }

    // Every group's.
    method PlaceAll(base: nat, refused: nat -> bool, ghost kept: seq<Span>) returns (ok: bool, ghost n: nat)
      requires LaidOut(artifact, layout) && spans == kept
      modifies this`spans
      ensures n <= |layout.all| && spans == kept + ChunkSpans(layout, base, owner, n)
      ensures if ok then n == |layout.all| else n < |layout.all| && refused(n)
    {
      hide Before, LaidOut, ChunkSpans;
      n := 0;
      BeforeZero(artifact.chunks);
      NoSpans(layout, base, owner, kept);
      var g := 0;
      while g < |artifact.chunks|
        invariant g <= |artifact.chunks| && n == Before(artifact.chunks, g) <= |layout.all|
        invariant LaidOut(artifact, layout) && spans == kept + ChunkSpans(layout, base, owner, n)
      {
        ok, n := PlaceGroup(base, g, refused, kept);
        if !ok { return; }
        g := g + 1;
      }
      ok := true;
      AllLaid(artifact, layout);
    }

    /** Registers every chunk's source at a place, the spans at the other gone. A source may be refused. */
    method Place(which: nat, refused: nat -> bool) returns (r: Result<()>)
      requires Kept() && which < 2
      modifies this`spans, this`place
      ensures Kept()
      ensures r.Ok? ==> Valid() && place == which
      ensures r.Err? ==> place == old(place) && exists d: nat :: d < |layout.all| && refused(d)
    {
      hide AllApart, Sorted, ChunkSpans, Replaced, IsChunk, Apart, Erased, InOrder, LaidOut, Outside;
      AllLaid(artifact, layout);
      var l, mine := layout, owner;
      ErasedApart(spans, s => Replaced(l, mine, s));
      spans := Erased(spans, s => Replaced(l, mine, s));
      ghost var kept := spans;
      assert forall s :: s in kept <==> s in others;
      var ok; ghost var n;
      ok, n := PlaceAll(bases[which], refused, kept);
      KeptOutside(layout, bases[which], kept, others);
      JoinedApart(layout, bases[which], owner, kept, n);
      JoinedOthers(layout, bases[which], owner, kept, others, n);
      if !ok { return Err("a chunk's source"); }
      forall s ensures s in spans <==> s in others || IsChunk(layout, bases[which], owner, s) {
        JoinedMembers(layout, bases[which], owner, kept, s);
      }
      InOrderGood(spans);
      spans := InOrder(spans);
      place := which;
      return Ok(());
    }
  
    /** Rewrites every tensor's address for where the weights are now. */
    method MapWeights()
      requires Valid()
      modifies this`addresses
      ensures Addressed()
      ensures forall i: nat | i < |addresses| ::
                var r := artifact.resources[i];
                r.group < |layout.regions| && addresses[i] == bases[place] + layout.regions[r.group] + r.offset
    {
      forall i: nat | i < |artifact.resources|
        ensures var r := artifact.resources[i];
                r.group < |layout.regions| && Address(i) == bases[place] + layout.regions[r.group] + r.offset
      {
      }
      hide Valid, Address;
      addresses := [];
      for i := 0 to |artifact.resources|
        invariant |addresses| == i && Valid() && forall j: nat | j < i :: addresses[j] == Address(j)
      {
        addresses := addresses + [Address(i)];
      }
    }

    /** Evicts every weight, moves to the other place every second time if asked to, pages the weights back in, and
        rewrites the addresses. */
    method Restore(relocate: bool, turn: Turn) returns (r: Result<()>)
      requires Valid()
      modifies this
      ensures Kept() && (r.Ok? ==> Ready()) && (old(Standing()) ==> Standing())
      ensures old(place) < 2 && (r.Ok? ==> place == PlaceAfter(old(place), relocate, turn.evaluation))
    {
      PlacedKept();
      hide Kept, Valid, RangeBacked;
      ghost var still, weights := resident - Members(layout.all), Members(layout.all);
      if !turn.evicts { return Err("evicting the weights"); }
      resident := resident - Members(layout.all);
      assert resident - weights == still;
      if relocate && turn.evaluation % 2 == 0 {
        var placed := Place(1 - place, turn.refused);
        if placed.Err? { return Err(placed.error); }
      }
      if !turn.loads { return Err("loading the weights"); }
      resident := resident + Members(layout.all);
      assert resident - weights == still;
      MapWeights();
      return Ok(());
    }

    // The spans at a place are ones a new place replaces.
    lemma PlacedKept()
      requires Valid()
      ensures Kept() && place < 2
    {
      hide AllApart, Sorted;
      forall s ensures s in others <==> s in spans && !Replaced(layout, owner, s) {
        if s in others { var k :| 0 <= k < |others| && others[k] == s; }
        if IsChunk(layout, bases[place], owner, s) {
          var d: nat :| d < |layout.all| && s == ChunkSpan(layout, bases[place], owner, d);
          assert layout.all[d] in layout.all;
        }
      }
    }

    /** A phase's check of every range the program uses, by the spans: none is out of place. */
    method CheckPhase() returns (ok: bool)
      requires Ready() && Standing()
      ensures ok
    {
      hide AllApart, Sorted;
      ok := true;
      for i := 0 to |fixed|
        invariant ok
      {
        StillBacked(i);
        var covered := Covered(spans, resident, fixed[i].address, fixed[i].bytes, owner);
        ok := ok && covered == Some(fixed[i].kind);
      }
      for i := 0 to |addresses|
        invariant ok
      {
        NotStale(i);
        var covered := Covered(spans, resident, addresses[i], artifact.resources[i].bytes, owner);
        ok := ok && covered == Some(Weights);
      }
    }

    /** A whole run: registered at the first place, loaded, and then restored any number of times, each phase checked.
        Whatever the node refuses, every phase that runs passes its check, and the spans that are not the weights'
        stay. */
    method Run(relocate: bool, start: Turn, turns: seq<Turn>) returns (places: seq<nat>, passed: bool)
      requires Kept() && Standing()
      modifies this
      ensures Kept() && Standing() && passed && |places| <= |turns| + 1 && Moves(places, relocate, turns)
    {
      hide Kept, Valid, Moves, RangeBacked;
      places, passed := [], true;
      NoMoves(0, relocate, turns);
      var placed := Place(0, start.refused);
      if placed.Err? || !start.loads { return; }
      ghost var still := resident - Members(layout.all);
      resident := resident + Members(layout.all);
      assert resident - Members(layout.all) == still;
      MapWeights();
      passed := CheckPhase();
      places := [place];
      for k := 0 to |turns|
        invariant |places| == k + 1 && Ready() && Kept() && Standing() && passed && places[k] == place
        invariant Moves(places, relocate, turns)
      {
        var restored := Restore(relocate, turns[k]);
        if restored.Err? { return; }
        passed := CheckPhase();
        MovesMore(places, relocate, turns, place);
        places := places + [place];
      }
    }
  }

  // The chunk of all that holds byte `x` of a tensor, and where it lies at a place.
  lemma ChunkOf(a: Artifact, l: Layout, base: nat, i: nat, x: nat) returns (d: nat)
    requires a.Valid() && LaidOut(a, l) && i < |a.resources| && x < a.resources[i].bytes
    ensures var r := a.resources[i];
            var c := (r.offset + x) / EXTENT;
            && d < |l.all| && r.group < |l.regions| && r.group < |l.extents| && c < |l.extents[r.group]|
            && l.all[d] == l.extents[r.group][c]
            && base + l.regions[r.group] + r.offset + x == base + d * EXTENT + (r.offset + x) % EXTENT
  {
    hide Before;
    var r := a.resources[i];
    var c := (r.offset + x) / EXTENT;
    assert c < a.chunks[r.group];
    assert ChunkAt(a.chunks, l.extents, l.all, r.group, c);
    d := Before(a.chunks, r.group) + c;
    assert l.regions[r.group] == Before(a.chunks, r.group) * EXTENT;
  }

  lemma OneSpan(spans: seq<Span>, j: nat, k: nat, x: int)
    requires AllApart(spans) && j < |spans| && k < |spans| && Contains(spans[j], x) && Contains(spans[k], x)
    ensures j == k
  {
  }

  // The restores of even evaluations among the first `n`.
  function Evens(turns: seq<Turn>, n: nat): set<nat>
    requires n <= |turns|
  {
    set j: nat | j < n && turns[j].evaluation % 2 == 0
  }

  /** Where a run is after `k` restores: at the second place if an odd number of them were of even evaluations, and always
      at the first if the weights do not move. */
  lemma {:induction false} PlacesAre(places: seq<nat>, relocate: bool, turns: seq<Turn>, k: nat)
    requires Moves(places, relocate, turns) && k < |places|
    ensures places[k] == if relocate then |Evens(turns, k)| % 2 else 0
  {
    if k == 0 {
      assert Evens(turns, 0) == {};
    } else {
      PlacesAre(places, relocate, turns, k - 1);
      MoveTo(places, relocate, turns, k);
      EvensNext(turns, k - 1);
      hide Moves, Evens;
    }
  }

  lemma MoveTo(places: seq<nat>, relocate: bool, turns: seq<Turn>, k: nat)
    requires Moves(places, relocate, turns) && 0 < k < |places|
    ensures places[k] == if relocate && turns[k - 1].evaluation % 2 == 0 then 1 - places[k - 1] else places[k - 1]
  {
    assert places[k] == PlaceAfter(places[k - 1], relocate, turns[k - 1].evaluation);
  }

  lemma EvensNext(turns: seq<Turn>, k: nat)
    requires k < |turns|
    ensures |Evens(turns, k + 1)| == |Evens(turns, k)| + if turns[k].evaluation % 2 == 0 then 1 else 0
  {
    var even := turns[k].evaluation % 2 == 0;
    assert Evens(turns, k + 1) == Evens(turns, k) + if even then {k} else {};
  }

  /** One restore for each evaluation from the third on: the weights move before every second one. */
  lemma {:induction false} MovesEverySecond(places: seq<nat>, turns: seq<Turn>, k: nat)
    requires Moves(places, true, turns) && k < |places|
    requires forall j | 0 <= j < |turns| :: turns[j].evaluation == 3 + j
    ensures places[k] == k / 2 % 2
  {
    if 0 < k {
      MovesEverySecond(places, turns, k - 1);
      MoveTo(places, true, turns, k);
      assert turns[k - 1].evaluation == 2 + k;
      hide Moves;
      EverySecond(k - 1);
    }
  }

  lemma EverySecond(k: nat)
    ensures (k + 1) / 2 % 2 == if (3 + k) % 2 == 0 then 1 - k / 2 % 2 else k / 2 % 2
  {
  }

  /** The places a run goes through. */
  ghost predicate Moves(places: seq<nat>, relocate: bool, turns: seq<Turn>) {
    && |places| <= |turns| + 1 && (forall k | 0 <= k < |places| :: places[k] < 2) && (places != [] ==> places[0] == 0)
    && forall k | 0 < k < |places| :: places[k] == PlaceAfter(places[k - 1], relocate, turns[k - 1].evaluation)
  }

  lemma NoMoves(first: nat, relocate: bool, turns: seq<Turn>)
    ensures Moves([], relocate, turns) && (first == 0 ==> Moves([first], relocate, turns))
  {
  }

  lemma MovesMore(places: seq<nat>, relocate: bool, turns: seq<Turn>, next: nat)
    requires Moves(places, relocate, turns) && 0 < |places| <= |turns| && places[|places| - 1] < 2
    requires next == PlaceAfter(places[|places| - 1], relocate, turns[|places| - 1].evaluation)
    ensures Moves(places + [next], relocate, turns)
  {
  }

  lemma NoSpans(l: Layout, base: nat, owner: int, kept: seq<Span>)
    ensures kept == kept + ChunkSpans(l, base, owner, 0)
  {
  }

  lemma SpansNext(l: Layout, base: nat, owner: int, n: nat, kept: seq<Span>)
    requires n < |l.all|
    ensures kept + ChunkSpans(l, base, owner, n + 1) == kept + ChunkSpans(l, base, owner, n) + [ChunkSpan(l, base, owner, n)]
  {
    assert ChunkSpans(l, base, owner, n + 1) == ChunkSpans(l, base, owner, n) + [ChunkSpan(l, base, owner, n)];
  }

  lemma AllLaid(a: Artifact, l: Layout)
    requires LaidOut(a, l)
    ensures |l.all| == Before(a.chunks, |a.chunks|) && l.bytes == |l.all| * EXTENT
  {
  }

  lemma KeptOutside(l: Layout, base: nat, kept: seq<Span>, others: seq<Span>)
    requires forall s :: s in kept <==> s in others
    requires forall i | 0 <= i < |others| :: Outside(others[i], base, l.bytes)
    ensures forall i | 0 <= i < |kept| :: Outside(kept[i], base, l.bytes)
  {
    forall i | 0 <= i < |kept| ensures Outside(kept[i], base, l.bytes) {
      assert kept[i] in others;
      var k :| 0 <= k < |others| && others[k] == kept[i];
    }
  }

  // The weights' spans are the ones a new place replaces.
  lemma JoinedOthers(l: Layout, base: nat, owner: int, kept: seq<Span>, others: seq<Span>, n: nat)
    requires n <= |l.all| && (forall s :: s in kept <==> s in others)
    requires forall i | 0 <= i < |others| :: !Replaced(l, owner, others[i])
    ensures forall s :: s in others <==> s in kept + ChunkSpans(l, base, owner, n) && !Replaced(l, owner, s)
  {
    var chunks := ChunkSpans(l, base, owner, n);
    forall s ensures s in others <==> s in kept + chunks && !Replaced(l, owner, s) {
      if s in chunks {
        var d :| 0 <= d < |chunks| && chunks[d] == s;
        assert s.extent == l.all[d];
      }
      if s in others { var k :| 0 <= k < |others| && others[k] == s; }
    }
  }

  lemma WithinRegion(a: Artifact, l: Layout, i: nat)
    requires a.Valid() && LaidOut(a, l) && i < |a.resources|
    ensures var r := a.resources[i]; r.group < |l.regions| && l.regions[r.group] + r.offset + r.bytes <= l.bytes
  {
    hide Before;
    var g := a.resources[i].group;
    BeforeNext(a.chunks, g);
    BeforeGrows(a.chunks, g + 1, |a.chunks|);
    assert l.regions[g] == Before(a.chunks, g) * EXTENT;
  }
}
