/** The plans a runner keeps (benchmarks/dsv4_exec.cc, Runner::Chunk and SetExact; benchmarks/qwen38_exec.cc,
    Runner::Chunk): a chunk of a shape seen lately runs on the plan made for it then. Planning is a function of the
    shape, the reference mode and the tensors kept, and may fail. */
module PlanCache {
  import opened Collections
  import opened Results

  const MOST := 8

  /** A chunk's shape in the reference mode or not, and its plan. */
  datatype Planner<!Request, !Shape, !Plan> =
    Planner(shapeOf: (Request, bool) -> Result<Shape>, prepare: (Shape, bool, seq<string>) -> Result<Plan>)

  datatype Call<Request> = Chunk(request: Request, keep: seq<string>) | SetExact(on: bool)

  datatype Entry<Shape, Plan> = Entry(shape: Shape, plan: Plan)

  // --------------------------------------------------------------------- with no cache at all

  /** Every plan made afresh. */
  function Fresh<R, S, P>(p: Planner<R, S, P>, exact: bool, request: R, keep: seq<string>): Result<P> {
    match p.shapeOf(request, exact)
    case Err(e) => Err(e)
    case Ok(shape) => p.prepare(shape, exact, keep)
  }

  function FreshAll<R, S, P>(p: Planner<R, S, P>, exact: bool, calls: seq<Call<R>>): seq<Result<P>>
    decreases |calls|
  {
    if calls == [] then []
    else match calls[0]
      case Chunk(request, keep) => [Fresh(p, exact, request, keep)] + FreshAll(p, exact, calls[1..])
      case SetExact(on) => FreshAll(p, on, calls[1..])
  }

  // ------------------------------------------------------------------------- a list of shapes

  /** The shapes planned lately. */
  function Recent<S>(planned: seq<S>): seq<S> {
    if |planned| <= MOST then planned else planned[|planned| - MOST..]
  }

  /** The shapes planned since the mode was set, and the plans made in all, were the last eight shapes planned
      remembered. */
  datatype Log<Shape> = Log(exact: bool, planned: seq<Shape>, made: nat)

  function Logged<R, S(==), P>(p: Planner<R, S, P>, log: Log<S>, call: Call<R>): Log<S> {
    match call
    case SetExact(on) => Log(on, [], log.made)
    case Chunk(request, keep) =>
      var shape := p.shapeOf(request, log.exact);
      if keep != [] || shape.Err? || shape.value in Recent(log.planned) || p.prepare(shape.value, log.exact, []).Err? then log
      else log.(planned := log.planned + [shape.value], made := log.made + 1)
  }

  function LoggedAll<R, S(==), P>(p: Planner<R, S, P>, log: Log<S>, calls: seq<Call<R>>): Log<S>
    decreases |calls|
  {
    if calls == [] then log else LoggedAll(p, Logged(p, log, calls[0]), calls[1..])
  }

  // ------------------------------------------------------------------------------ the runner

  /** What the runner holds: its cache, oldest plan first. */
  datatype Held<Shape, Plan> = Held(cache: seq<Entry<Shape, Plan>>, exact: bool, made: nat)

  function Found<S(==), P>(cache: seq<Entry<S, P>>, shape: S): (i: nat)
    ensures i <= |cache| && (i < |cache| ==> cache[i].shape == shape)
    ensures forall j | 0 <= j < i :: cache[j].shape != shape
  {
    if cache == [] || cache[0].shape == shape then 0 else
      var i := 1 + Found(cache[1..], shape);
      assert forall j | 1 <= j < i :: cache[j] == cache[1..][j - 1];
      i
  }

  function Kept<S, P>(cache: seq<Entry<S, P>>, entry: Entry<S, P>): seq<Entry<S, P>> {
    (if MOST <= |cache| then cache[1..] else cache) + [entry]
  }

  /** What a call leaves held and, for a chunk, what it runs on. */
  function Served<R, S(==), P>(p: Planner<R, S, P>, h: Held<S, P>, request: R, keep: seq<string>): (Held<S, P>, Result<P>) {
    match p.shapeOf(request, h.exact)
    case Err(e) => (h, Err(e))
    case Ok(shape) =>
      if keep != [] then (h, p.prepare(shape, h.exact, keep))
      else
        var i := Found(h.cache, shape);
        if i < |h.cache| then (h, Ok(h.cache[i].plan))
        else match p.prepare(shape, h.exact, [])
          case Err(e) => (h, Err(e))
          case Ok(plan) => (Held(Kept(h.cache, Entry(shape, plan)), h.exact, h.made + 1), Ok(plan))
  }

  function ServedAll<R, S(==), P>(p: Planner<R, S, P>, h: Held<S, P>, calls: seq<Call<R>>): (Held<S, P>, seq<Result<P>>)
    decreases |calls|
  {
    if calls == [] then (h, [])
    else match calls[0]
      case SetExact(on) => ServedAll(p, Held([], on, h.made), calls[1..])
      case Chunk(request, keep) =>
        var (next, r) := Served(p, h, request, keep);
        var (end, rest) := ServedAll(p, next, calls[1..]);
        (end, [r] + rest)
  }

  class Runner<R, S(==), P> {
    const planner: Planner<R, S, P>
    var cache: seq<Entry<S, P>>
    var exact: bool
    var plansMade: nat

    ghost function Holds(): Held<S, P>
      reads this
    {
      Held(cache, exact, plansMade)
    }

    constructor (planner: Planner<R, S, P>, exact: bool)
      ensures this.planner == planner && Holds() == Held([], exact, 0)
    {
      this.planner, cache, this.exact, plansMade := planner, [], exact, 0;
    }

    /** The plan a chunk runs on. */
    method Chunk(request: R, keep: seq<string>) returns (r: Result<P>)
      modifies this
      ensures (Holds(), r) == Served(planner, old(Holds()), request, keep)
    {
      var shape :- planner.shapeOf(request, exact);
      if keep == [] {
        var found := 0;
        while found < |cache| && cache[found].shape != shape
          invariant found <= |cache| && Found(cache, shape) == found + Found(cache[found..], shape)
        {
          assert cache[found..][1..] == cache[found + 1..];
          found := found + 1;
        }
        if found == |cache| {
          var plan :- planner.prepare(shape, exact, []);
          if MOST <= |cache| { cache := cache[1..]; }
          cache := cache + [Entry(shape, plan)];
          plansMade := plansMade + 1;
          return Ok(plan);
        }
        return Ok(cache[found].plan);
      }
      r := planner.prepare(shape, exact, keep);
    }

    /** Changes the mode. A plan made in the other mode is of no use, so none is kept. */
    method SetExact(on: bool)
      modifies this
      ensures Holds() == Held([], on, old(plansMade))
    {
      exact, cache := on, [];
    }

    /** Any sequence of calls. */
    method Serve(calls: seq<Call<R>>) returns (out: seq<Result<P>>)
      modifies this
      ensures Holds() == ServedAll(planner, old(Holds()), calls).0 && out == ServedAll(planner, old(Holds()), calls).1
    {
      out := [];
      assert calls[0..] == calls;
      for i := 0 to |calls|
        invariant ServedAll(planner, old(Holds()), calls).0 == ServedAll(planner, Holds(), calls[i..]).0
        invariant ServedAll(planner, old(Holds()), calls).1 == out + ServedAll(planner, Holds(), calls[i..]).1
      {
        assert calls[i..][0] == calls[i] && calls[i..][1..] == calls[i + 1..];
        match calls[i] {
          case SetExact(on) =>
            SetExact(on);
          case Chunk(request, keep) =>
            var r := Chunk(request, keep);
            out := out + [r];
        }
      }
      assert calls[|calls|..] == [];
    }
  }

  // --------------------------------------------------------------------------- transparency

  /** Each plan held is the one planning would make now. */
  ghost predicate Current<R(!new), S(!new), P(!new)>(p: Planner<R, S, P>, h: Held<S, P>) {
    forall i | 0 <= i < |h.cache| :: p.prepare(h.cache[i].shape, h.exact, []) == Ok(h.cache[i].plan)
  }

  /** What is held, against the log: the last eight shapes planned, each once, each with its current plan. */
  ghost predicate Agrees<R(!new), S(!new), P(!new)>(p: Planner<R, S, P>, h: Held<S, P>, log: Log<S>) {
    && h.exact == log.exact && h.made == log.made && Current(p, h)
    && |h.cache| == |Recent(log.planned)| <= MOST && Distinct(Recent(log.planned))
    && forall i | 0 <= i < |h.cache| :: h.cache[i].shape == Recent(log.planned)[i]
  }

  lemma RecentMore<S>(planned: seq<S>, shape: S)
    ensures Recent(planned + [shape]) == (if MOST <= |Recent(planned)| then Recent(planned)[1..] else Recent(planned)) + [shape]
  {
  }

  // A shape is found if and only if it was planned lately, and then with its plan.
  lemma FoundIff<R(!new), S(!new), P(!new)>(p: Planner<R, S, P>, h: Held<S, P>, log: Log<S>, shape: S)
    requires Agrees(p, h, log)
    ensures var i := Found(h.cache, shape);
            && (i < |h.cache| <==> shape in Recent(log.planned))
            && (i < |h.cache| ==> p.prepare(shape, h.exact, []) == Ok(h.cache[i].plan))
  {
    hide Found, Recent;
    var i, recent := Found(h.cache, shape), Recent(log.planned);
    assert i < |h.cache| ==> recent[i] == shape;
    assert i == |h.cache| ==> forall j | 0 <= j < |recent| :: recent[j] == h.cache[j].shape;
  }

  // A plan more.
  lemma KeptAgrees<R(!new), S(!new), P(!new)>(p: Planner<R, S, P>, h: Held<S, P>, log: Log<S>, shape: S, plan: P)
    requires Agrees(p, h, log) && shape !in Recent(log.planned) && p.prepare(shape, h.exact, []) == Ok(plan)
    ensures Agrees(p, Held(Kept(h.cache, Entry(shape, plan)), h.exact, h.made + 1),
                   log.(planned := log.planned + [shape], made := log.made + 1))
  {
    RecentMore(log.planned, shape);
    hide Recent;
  }

  lemma SameMode<R(!new), S(!new), P(!new)>(p: Planner<R, S, P>, h: Held<S, P>, log: Log<S>)
    requires Agrees(p, h, log)
    ensures h.exact == log.exact
  {
  }

  /** One chunk: the plan is the one made afresh, and the cache still agrees with the log. */
  lemma ServedAgrees<R(!new), S(!new), P(!new)>(p: Planner<R, S, P>, h: Held<S, P>, log: Log<S>, request: R, keep: seq<string>)
    requires Agrees(p, h, log)
    ensures Served(p, h, request, keep).1 == Fresh(p, h.exact, request, keep)
    ensures Agrees(p, Served(p, h, request, keep).0, Logged(p, log, Chunk(request, keep)))
  {
    hide Agrees, Recent, Kept, Found;
    SameMode(p, h, log);
    var shape := p.shapeOf(request, h.exact);
    if shape.Ok? && keep == [] {
      FoundIff(p, h, log, shape.value);
      var plan := p.prepare(shape.value, h.exact, []);
      if Found(h.cache, shape.value) == |h.cache| && plan.Ok? { KeptAgrees(p, h, log, shape.value, plan.value); }
    }
  }

  /** The cache is transparent: over any calls, the chunks run on the plans they would be given were every plan made
      afresh. What is held is the last eight shapes planned since the mode was set, each once and with its current
      plan, and the count is of the plans made, one for each chunk whose shape was not among them. */
  lemma {:induction false} Transparent<R(!new), S(!new), P(!new)>(p: Planner<R, S, P>, h: Held<S, P>, log: Log<S>, calls: seq<Call<R>>)
    requires Agrees(p, h, log)
    ensures ServedAll(p, h, calls).1 == FreshAll(p, h.exact, calls)
    ensures Agrees(p, ServedAll(p, h, calls).0, LoggedAll(p, log, calls))
    decreases |calls|
  {
    if calls != [] {
      match calls[0]
      case SetExact(on) =>
        Transparent(p, Held([], on, h.made), Log(on, [], log.made), calls[1..]);
      case Chunk(request, keep) =>
        ServedAgrees(p, h, log, request, keep);
        hide Agrees, Served, Logged, Fresh;
        Transparent(p, Served(p, h, request, keep).0, Logged(p, log, calls[0]), calls[1..]);
    }
  }
}
