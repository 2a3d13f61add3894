/** Search state of the chain solver and the invariants that every step of it keeps. */
module SolverState {
  import opened Costs
  import opened Graphs
  import opened Closure

  const MAX_STK: nat := 32
  const MAX_CANDSTK: nat := 256

  /** Chain part of a variable's `ssp`: the chosen model edge and model instance. */
  datatype VarState = NoChain | Chain(ei: nat, inst: nat)

  datatype VarSp = VarSp(cost: Cost, st: VarState)

  datatype ModSp = ModSp(cost: Cost, chain: bool)

  /** Shadow state: the EVAL and PASS bits. */
  datatype Bits = Unevaluated | Failed | Passed

  type VarMap = map<Ref, VarSp>
  type ModMap = map<Ref, ModSp>
  type BitMap = map<Ref, Bits>

  /** `xcand`: the model instances behind one nonempty model edge. */
  datatype Cand = Cand(ei: nat, mi: nat, insts: seq<nat>)

  /** Where a frame of the work stack continues. */
  datatype Phase = Candidate | Shadow | Param

  /** `xstate`. In the shadow phase `edge` is the check at hand; in the parameter phase, which runs
      downwards, the parameter at hand is `edge - 1`. `it` counts the instances done. */
  datatype XState = XState(x: Ref, beta: real, start: nat, cands: seq<Cand>, where: Phase,
                           m: Ref, ei: nat, mbeta: real, betaS: real, costS: Cost,
                           edge: nat, it: nat, ssmax: Cost)

  /** How a solve ends. `Missing` stands for a value computation on a variable that has no chain. */
  datatype Outcome = Running | Solved | Unsolvable | Cycle | TooDeep | Unstable | Missing

  // ---------- what the stored state means ----------

  predicate Marked(v: VarMap, x: Ref) {
    x in v && v[x].cost == Fin(SP_MARK)
  }

  predicate Chained(v: VarMap, x: Ref) {
    x in v && v[x].st.Chain?
  }

  /** `SP_DONE`: has a chain, or a bound of at least `MAX_COST`. */
  predicate Done(sp: VarSp) {
    sp.st.Chain? || Le(Fin(MAX_COST), sp.cost)
  }

  /** A variable that an earlier solve left without a chain and with a bound of at least `MAX_COST`. */
  predicate Stuck(p: Problem, v: VarMap, x: Ref) {
    !Given(p.g, x.idx) && x in v && Done(v[x]) && v[x].st.NoChain?
  }

  /** An interval of instances of a requested variable. */
  datatype Root = Root(xi: nat, inst: nat, end: nat)

  predicate RootOk(p: Problem, r: Root) {
    r.xi < |p.g.vars| && r.inst < r.end <= Shape(p, p.g.vars[r.xi].group)
  }

  /** One instance of one variable. */
  predicate Single(roots: seq<Root>) {
    |roots| == 1 && roots[0].end == roots[0].inst + 1
  }

  predicate InRoots(roots: seq<Root>, k: int, i: int) {
    0 <= k < |roots| && roots[k].inst <= i < roots[k].end
  }

  /** A given variable, or one that counts as done. */
  predicate Settled(p: Problem, v: VarMap, x: Ref) {
    Given(p.g, x.idx) || (x in v && Done(v[x]))
  }

  /** All root instances before instance `i` of root `k` are settled. */
  ghost predicate UpTo(p: Problem, v: VarMap, roots: seq<Root>, k: int, i: int) {
    forall j, l :: InRoots(roots, j, l) && (j < k || (j == k && l < i)) ==> Settled(p, v, Ref(roots[j].xi, l))
  }

  /** In the finite set of reachable costs, or too large to be selected. */
  ghost predicate Stored(lat: set<Cost>, c: Cost) {
    c in lat || Lt(Fin(MAX_COST), c)
  }

  /** The model instance that a chain leads to. */
  function ChainModel(p: Problem, x: Ref, st: VarState): Ref
    requires IsVar(p, x) && st.Chain? && st.ei < NumEdges(p, x)
  {
    Ref(p.g.vars[x.idx].models[st.ei].idx, st.inst)
  }

  ghost predicate ChainOk(p: Problem, m: ModMap, x: Ref, sp: VarSp)
    requires IsVar(p, x)
  {
    && sp.st.Chain? && sp.st.ei < NumEdges(p, x)
    && (exists i: nat :: IsCand(p, x, sp.st.ei, i) && CandRef(p, x, sp.st.ei, i) == ChainModel(p, x, sp.st))
    && ChainModel(p, x, sp.st) in m
    && m[ChainModel(p, x, sp.st)] == ModSp(sp.cost, true)
  }

  /** A stored variable cost never exceeds the true cost, and a chained one is exact. */
  ghost predicate VarOk(p: Problem, t: Truth, lat: set<Cost>, v: VarMap, m: ModMap, x: Ref)
    requires IsVar(p, x)
  {
    && x in v
    && Le(v[x].cost, t.v(x))
    && (v[x].cost == Fin(SP_MARK) ==> v[x].st.NoChain?)
    && (v[x].cost != Fin(SP_MARK) ==> Stored(lat, v[x].cost))
    && (v[x].st.Chain? ==> v[x].cost == t.v(x) && Le(t.v(x), Fin(MAX_COST)) && ChainOk(p, m, x, v[x]))
  }

  ghost predicate ParamsChained(p: Problem, v: VarMap, m: Ref, from: nat)
    requires IsModel(p, m)
  {
    forall e: nat, i: nat :: from <= e < ModelOf(p, m).cparam && IsParam(p, m, e, i) ==>
        Chained(v, ParamRef(p, m, e, i))
  }

  ghost predicate FirstChained(p: Problem, v: VarMap, m: Ref, e: nat, n: nat)
    requires IsModel(p, m) && e < |ModelOf(p, m).params| && n <= |ParamInsts(p, m, e)|
  {
    forall i: nat :: i < n ==> Chained(v, ParamRef(p, m, e, i))
  }

  ghost predicate ModOk(p: Problem, t: Truth, lat: set<Cost>, v: VarMap, mm: ModMap, m: Ref)
    requires IsModel(p, m)
  {
    && m in mm
    && Le(Fin(ModelOf(p, m).k), mm[m].cost) && Le(mm[m].cost, t.m(m))
    && Stored(lat, mm[m].cost)
    && (mm[m].chain ==> mm[m].cost == t.m(m) && ParamsChained(p, v, m, 0))
  }

  ghost predicate BitsOk(p: Problem, t: Truth, b: BitMap, w: Ref)
    requires IsShadow(p, w)
  {
    && w in b
    && (b[w].Passed? ==> Passes(p, t, w))
    && (b[w].Failed? ==> !Passes(p, t, w))
  }

  ghost predicate VarsOk(p: Problem, t: Truth, lat: set<Cost>, v: VarMap, mm: ModMap) {
    forall x: Ref :: IsVar(p, x) ==> VarOk(p, t, lat, v, mm, x)
  }

  ghost predicate ModsOk(p: Problem, t: Truth, lat: set<Cost>, v: VarMap, mm: ModMap) {
    forall m: Ref :: IsModel(p, m) ==> ModOk(p, t, lat, v, mm, m)
  }

  ghost predicate AllBitsOk(p: Problem, t: Truth, b: BitMap) {
    forall w: Ref :: IsShadow(p, w) ==> BitsOk(p, t, b, w)
  }

  /** Only solved and given variables have values. */
  ghost predicate HaveOk(p: Problem, v: VarMap, have: set<Ref>) {
    forall x: Ref :: x in have ==> IsVar(p, x) && (Given(p.g, x.idx) || Chained(v, x))
  }

  // ---------- frames ----------

  /** Candidates behind the first `n` model edges. */
  function CandList(p: Problem, x: Ref, n: nat): (cs: seq<Cand>)
    requires IsVar(p, x) && n <= NumEdges(p, x)
  {
    if n == 0 then []
    else
      var rest := CandList(p, x, n - 1);
      var insts := CandInsts(p, x, n - 1);
      if |insts| == 0 then rest else rest + [Cand(n - 1, p.g.vars[x.idx].models[n - 1].idx, insts)]
  }

  predicate IsCandEdge(p: Problem, x: Ref, c: Cand) {
    IsVar(p, x) && c.ei < NumEdges(p, x) && c.mi == p.g.vars[x.idx].models[c.ei].idx
    && c.insts == CandInsts(p, x, c.ei) && |c.insts| > 0
  }

  /** The list holds exactly the nonempty model edges. */
  lemma {:induction false} CandListExact(p: Problem, x: Ref, n: nat, c: Cand)
    requires IsVar(p, x) && n <= NumEdges(p, x)
    ensures c in CandList(p, x, n) <==> IsCandEdge(p, x, c) && c.ei < n
  {
    if n > 0 {
      CandListExact(p, x, n - 1, c);
      var rest, insts := CandList(p, x, n - 1), CandInsts(p, x, n - 1);
      var last := Cand(n - 1, p.g.vars[x.idx].models[n - 1].idx, insts);
      assert CandList(p, x, n) == if |insts| == 0 then rest else rest + [last];
      assert IsCandEdge(p, x, c) && c.ei == n - 1 ==> c == last;
    }
  }

  /** The frame works on a candidate that no other candidate can beat below `mbeta`. */
  ghost predicate Selected(p: Problem, t: Truth, f: XState)
    requires GraphOk(p.g) && IsVar(p, f.x)
  {
    && IsModel(p, f.m)
    && f.ei < NumEdges(p, f.x)
    && (exists i: nat :: IsCand(p, f.x, f.ei, i) && CandRef(p, f.x, f.ei, i) == f.m)
    && ModelOf(p, f.m).k <= f.mbeta <= f.beta
    && ModelOf(p, f.m).c >= 1.0
    && f.betaS == InvS(ModelOf(p, f.m).k, ModelOf(p, f.m).c, f.mbeta)
    && (forall ei: nat, i: nat :: IsCand(p, f.x, ei, i) && CandRef(p, f.x, ei, i) != f.m
          ==> Le(Fin(f.mbeta), t.m(CandRef(p, f.x, ei, i))))
  }

  ghost predicate WithinS(lat: set<Cost>, f: XState, c: Cost) {
    c in lat && c.Fin? && 0.0 <= c.r <= f.betaS
  }

  ghost predicate ShadowProgress(p: Problem, t: Truth, lat: set<Cost>, f: XState)
    requires GraphOk(p.g) && IsModel(p, f.m)
  {
    && WithinS(lat, f, f.costS)
    && f.edge <= |ModelOf(p, f.m).checks|
    && f.costS == Fin(Penalties(p, t, f.m, f.edge))
    && (f.edge < |ModelOf(p, f.m).checks| ==>
          && f.it <= |CheckInsts(p, f.m, f.edge)|
          && forall i: nat :: i < f.it ==> Passes(p, t, CheckRef(p, f.m, f.edge, i)))
  }

  ghost predicate ParamProgress(p: Problem, t: Truth, lat: set<Cost>, v: VarMap, f: XState)
    requires GraphOk(p.g) && IsModel(p, f.m)
  {
    && WithinS(lat, f, f.costS)
    && f.edge <= ModelOf(p, f.m).cparam <= |ModelOf(p, f.m).params|
    && f.costS == Add(Fin(Penalties(p, t, f.m, |ModelOf(p, f.m).checks|)), ParamSum(p, t, f.m, f.edge))
    && ParamsChained(p, v, f.m, f.edge)
    && (f.edge > 0 ==>
          && f.it <= |ParamInsts(p, f.m, f.edge - 1)|
          && f.ssmax == MaxCost(p, t, f.m, f.edge - 1, f.it)
          && f.ssmax in lat && WithinS(lat, f, Add(f.costS, f.ssmax))
          && FirstChained(p, v, f.m, f.edge - 1, f.it))
  }

  ghost predicate FrameOk(p: Problem, t: Truth, lat: set<Cost>, v: VarMap, f: XState)
    requires GraphOk(p.g)
  {
    && IsVar(p, f.x) && !Given(p.g, f.x.idx)
    && 0.0 <= f.beta <= MAX_COST
    && f.cands == CandList(p, f.x, NumEdges(p, f.x))
    && (f.where != Candidate ==> Selected(p, t, f))
    && (f.where == Shadow ==> ShadowProgress(p, t, lat, f))
    && (f.where == Param ==> ParamProgress(p, t, lat, v, f))
  }

  /** Frame `f` waits for `x` to be solved below `beta`. */
  ghost predicate Waiting(p: Problem, f: XState, x: Ref, beta: real)
    requires GraphOk(p.g)
  {
    match f.where
    case Candidate => false
    case Shadow =>
      IsCheck(p, f.m, f.edge, f.it) && x == Guarded(p, CheckRef(p, f.m, f.edge, f.it)) && beta == MAX_COST
    case Param =>
      f.edge > 0 && IsParam(p, f.m, f.edge - 1, f.it) && x == ParamRef(p, f.m, f.edge - 1, f.it)
      && f.costS.Fin? && beta == f.betaS - f.costS.r
  }

  /** Frame `f` is at instance `it` of check `edge`. */
  predicate AtCheck(p: Problem, f: XState) {
    f.where == Shadow && IsCheck(p, f.m, f.edge, f.it)
  }

  /** Frame `f` is at instance `it` of parameter `edge - 1`. */
  predicate AtParam(p: Problem, f: XState) {
    f.where == Param && f.edge > 0 && IsParam(p, f.m, f.edge - 1, f.it)
  }

  ghost predicate StackOk(p: Problem, t: Truth, lat: set<Cost>, v: VarMap, stk: seq<XState>)
    requires GraphOk(p.g)
  {
    && (forall k :: 0 <= k < |stk| ==> FrameOk(p, t, lat, v, stk[k]))
    && (forall k :: 0 < k < |stk| ==> Waiting(p, stk[k - 1], stk[k].x, stk[k].beta))
    && (|stk| > 0 ==> stk[0].beta == MAX_COST)
    && |stk| < MAX_STK
  }

  /** Exactly the variables on the stack are marked, each once. */
  ghost predicate MarksOk(v: VarMap, stk: seq<XState>) {
    && (forall k :: 0 <= k < |stk| ==> Marked(v, stk[k].x))
    && (forall x: Ref :: Marked(v, x) ==> exists k :: 0 <= k < |stk| && stk[k].x == x)
    && (forall j, k :: 0 <= j < k < |stk| ==> stk[j].x != stk[k].x)
  }

  // ---------- checks and models in progress ----------

  /** Check `e` of `m` has been walked: up to its first failing instance, or to its end. */
  ghost predicate CheckSeen(p: Problem, b: BitMap, m: Ref, e: nat)
    requires IsModel(p, m) && e < |ModelOf(p, m).checks|
  {
    || FirstPassed(p, b, m, e, |CheckInsts(p, m, e)|)
    || (exists i: nat ::
        i < |CheckInsts(p, m, e)| && HasBits(b, CheckRef(p, m, e, i), Failed) && FirstPassed(p, b, m, e, i))
  }

  predicate HasBits(b: BitMap, w: Ref, bits: Bits) {
    w in b && b[w] == bits
  }

  ghost predicate FirstPassed(p: Problem, b: BitMap, m: Ref, e: nat, n: nat)
    requires IsModel(p, m) && e < |ModelOf(p, m).checks| && n <= |CheckInsts(p, m, e)|
  {
    forall i: nat :: i < n ==> HasBits(b, CheckRef(p, m, e, i), Passed)
  }

  ghost predicate ChecksSeen(p: Problem, b: BitMap, m: Ref, n: nat)
    requires IsModel(p, m) && n <= |ModelOf(p, m).checks|
  {
    forall e: nat :: e < n ==> CheckSeen(p, b, m, e)
  }

  /** The model of a working frame has no chain yet and a bound within `mbeta`, and its checks so far have been
      evaluated. */
  ghost predicate InProgress(p: Problem, mm: ModMap, b: BitMap, f: XState) {
    f.where != Candidate ==>
      && IsModel(p, f.m) && f.m in mm && !mm[f.m].chain && Le(mm[f.m].cost, Fin(f.mbeta))
      && (f.where == Shadow ==>
            && f.edge <= |ModelOf(p, f.m).checks| && ChecksSeen(p, b, f.m, f.edge)
            && (f.edge < |ModelOf(p, f.m).checks| ==>
                  f.it <= |CheckInsts(p, f.m, f.edge)| && FirstPassed(p, b, f.m, f.edge, f.it)))
      && (f.where == Param ==> ChecksSeen(p, b, f.m, |ModelOf(p, f.m).checks|))
  }

  /** A check that waits for its variable is not evaluated meanwhile. */
  ghost predicate Pending(p: Problem, b: BitMap, f: XState) {
    f.where == Shadow ==> IsCheck(p, f.m, f.edge, f.it) && HasBits(b, CheckRef(p, f.m, f.edge, f.it), Unevaluated)
  }

  ghost predicate WorkOk(p: Problem, mm: ModMap, b: BitMap, stk: seq<XState>) {
    && (forall k :: 0 <= k < |stk| ==> InProgress(p, mm, b, stk[k]))
    && (forall k :: 0 <= k < |stk| - 1 ==> Pending(p, b, stk[k]))
  }

  // ---------- bounds only grow, seen from every frame ----------

  /** Pointwise comparison of stored model costs. */
  ghost predicate Below(a: ModMap, b: ModMap) {
    a.Keys == b.Keys && forall m :: m in a ==> Le(a[m].cost, b[m].cost)
  }

  /** `snaps[k]` is the model state at the time frame `k` selected its candidate. */
  ghost predicate SnapsOk(p: Problem, lat: set<Cost>, mm: ModMap, stk: seq<XState>, snaps: seq<ModMap>) {
    && |snaps| == |stk|
    && (forall k :: 0 <= k < |snaps| ==> Below(snaps[k], mm))
    && (forall j, k :: 0 <= j < k < |snaps| ==> Below(snaps[j], snaps[k]))
    && (forall k, m :: 0 <= k < |snaps| && IsModel(p, m) ==> m in snaps[k] && Stored(lat, snaps[k][m].cost))
    && (forall k :: 0 <= k < |snaps| && stk[k].where != Candidate ==>
          stk[k].m in snaps[k] && Le(snaps[k][stk[k].m].cost, Fin(stk[k].mbeta)))
  }

  /** Bounds that a model state can still reach. */
  ghost function Todo(lat: set<Cost>, mm: ModMap): set<(Ref, Cost)> {
    set m, c | m in mm && c in lat && Le(mm[m].cost, c) :: (m, c)
  }

  lemma TodoShrinks(lat: set<Cost>, a: ModMap, b: ModMap, m: Ref)
    requires Below(a, b) && m in a && Lt(a[m].cost, b[m].cost) && a[m].cost in lat
    ensures |Todo(lat, b)| < |Todo(lat, a)|
  {
    var ta, tb := Todo(lat, a), Todo(lat, b);
    assert tb <= ta;
    assert (m, a[m].cost) in ta && (m, a[m].cost) !in tb;
    assert |ta - tb| > 0;
    assert ta == tb + (ta - tb);
  }

  /** Progress measure of one frame. */
  datatype Rank = Rank(todo: nat, phase: nat, edges: nat, insts: nat)

  predicate LessRank(a: Rank, b: Rank) {
    || a.todo < b.todo
    || (a.todo == b.todo && a.phase < b.phase)
    || (a.todo == b.todo && a.phase == b.phase && a.edges < b.edges)
    || (a.todo == b.todo && a.phase == b.phase && a.edges == b.edges && a.insts < b.insts)
  }

  ghost function FrameRank(p: Problem, lat: set<Cost>, mm: ModMap, snap: ModMap, f: XState): Rank {
    match f.where
    case Candidate => Rank(|Todo(lat, mm)|, 2, 0, 0)
    case Shadow =>
      if IsModel(p, f.m) && f.edge < |ModelOf(p, f.m).checks| && f.it <= |CheckInsts(p, f.m, f.edge)| then
        Rank(|Todo(lat, snap)|, 1, |ModelOf(p, f.m).checks| - f.edge, |CheckInsts(p, f.m, f.edge)| - f.it)
      else Rank(|Todo(lat, snap)|, 1, 0, 0)
    case Param =>
      if IsModel(p, f.m) && 0 < f.edge <= |ModelOf(p, f.m).params| && f.it <= |ParamInsts(p, f.m, f.edge - 1)| then
        Rank(|Todo(lat, snap)|, 0, f.edge, |ParamInsts(p, f.m, f.edge - 1)| - f.it)
      else Rank(|Todo(lat, snap)|, 0, 0, 0)
  }

  // ---------- what failed and what is done ----------

  /** Where the candidates of the next frame start on the candidate stack. */
  function NextStart(stk: seq<XState>): nat {
    if stk == [] then 0 else stk[|stk| - 1].start + |stk[|stk| - 1].cands|
  }

  ghost predicate StartsOk(stk: seq<XState>) {
    forall k :: 0 <= k < |stk| ==> stk[k].start == NextStart(stk[..k])
  }

  /** Variable `x` is on the stack, and being solved up to the limit. */
  ghost predicate AtLimit(stk: seq<XState>, x: Ref) {
    exists k :: 0 <= k < |stk| && stk[k].x == x && stk[k].beta == MAX_COST
  }

  /** A variable that is given or done, or will be when it leaves the stack. */
  ghost predicate Ending(p: Problem, v: VarMap, stk: seq<XState>, x: Ref) {
    Given(p.g, x.idx) || (x in v && Done(v[x])) || AtLimit(stk, x)
  }

  /** All checks of a model with a chain have been walked. */
  ghost predicate ModelsSeen(p: Problem, mm: ModMap, b: BitMap) {
    forall m: Ref :: IsModel(p, m) && m in mm && mm[m].chain ==> ChecksSeen(p, b, m, |ModelOf(p, m).checks|)
  }

  /** A check has failed only on a variable that is done, and what is done stays so. */
  ghost predicate EndsOk(p: Problem, v: VarMap, stk: seq<XState>, b: BitMap, dead: set<Ref>) {
    && (forall w: Ref :: IsShadow(p, w) && HasBits(b, w, Failed) ==> Ending(p, v, stk, Guarded(p, w)))
    && (forall x :: x in dead ==> Ending(p, v, stk, x))
  }

  ghost predicate SeenOk(p: Problem, s: Search) {
    ModelsSeen(p, s.m, s.b) && EndsOk(p, s.v, s.stk, s.b, s.dead)
  }

  // ---------- bounds never decrease ----------

  /** No candidate of `x` has a bound below `c`. */
  ghost predicate AtMostCands(p: Problem, mm: ModMap, x: Ref, c: Cost) {
    forall ei: nat, i: nat :: IsCand(p, x, ei, i) ==>
        CandRef(p, x, ei, i) in mm && Le(c, mm[CandRef(p, x, ei, i)].cost)
  }

  /** The bound of a variable without a chain does not exceed those of its candidates. */
  ghost predicate FloorsOk(p: Problem, v: VarMap, mm: ModMap) {
    forall x: Ref :: IsVar(p, x) && x in v && v[x].st.NoChain? ==> AtMostCands(p, mm, x, v[x].cost)
  }

  /** What was stored at some time. */
  datatype Moment = Moment(v: VarMap, m: ModMap)

  /** No bound of a model has decreased since, no chain has been lost, and no bound of a variable has decreased but
      for a variable that is being solved now. */
  ghost predicate Risen(p: Problem, h: Moment, v: VarMap, mm: ModMap) {
    && Below(h.m, mm) && Extends(h.v, v)
    && (forall x: Ref :: IsVar(p, x) && x in h.v && !Marked(h.v, x) ==> x in v && (Marked(v, x) || NotLess(h.v, v, x)))
  }

  predicate NotLess(v: VarMap, w: VarMap, x: Ref)
    requires x in v && x in w
  {
    Le(v[x].cost, w[x].cost)
  }

  /** What was stored were lower bounds. */
  ghost predicate WasLow(p: Problem, t: Truth, h: Moment) {
    FloorsOk(p, h.v, h.m) && forall x: Ref :: IsVar(p, x) && x in h.v ==> Le(h.v[x].cost, t.v(x))
  }

  ghost predicate PastOk(p: Problem, t: Truth, v: VarMap, mm: ModMap, past: set<Moment>) {
    forall h :: h in past ==> WasLow(p, t, h) && Risen(p, h, v, mm)
  }

  // ---------- the whole invariant ----------

  /** Every model starts from a lower bound of its true cost that is at least `k`. */
  ghost predicate StartBounds(p: Problem, t: Truth) {
    forall m: Ref :: IsModel(p, m) ==> ModelOf(p, m).k <= ModelOf(p, m).cmin && Le(Fin(ModelOf(p, m).cmin), t.m(m))
  }

  /** What the caller must provide: a well formed problem whose start bounds are lower bounds. */
  ghost predicate Setup(p: Problem, t: Truth, lat: set<Cost>) {
    WellFormed(p) && IsSolution(p, t) && Closed(p.g, lat) && StartBounds(p, t)
  }

  /** The fields of the solver; `dead` holds variables that counted as done at some time, `past` what was stored. */
  datatype Search = Search(v: VarMap, m: ModMap, b: BitMap, have: set<Ref>, stk: seq<XState>, dead: set<Ref>,
                           past: set<Moment>)

  ghost predicate StateOk(p: Problem, t: Truth, lat: set<Cost>, s: Search) {
    && Setup(p, t, lat)
    && VarsOk(p, t, lat, s.v, s.m) && ModsOk(p, t, lat, s.v, s.m) && AllBitsOk(p, t, s.b) && HaveOk(p, s.v, s.have)
    && FloorsOk(p, s.v, s.m)
  }

  ghost predicate InvOf(p: Problem, t: Truth, lat: set<Cost>, s: Search, snaps: seq<ModMap>) {
    && StateOk(p, t, lat, s)
    && StackOk(p, t, lat, s.v, s.stk) && MarksOk(s.v, s.stk) && WorkOk(p, s.m, s.b, s.stk)
    && SnapsOk(p, lat, s.m, s.stk, snaps) && StartsOk(s.stk) && SeenOk(p, s)
    && PastOk(p, t, s.v, s.m, s.past)
  }

  /** Chains once found stay. */
  ghost predicate Extends(v: VarMap, w: VarMap) {
    forall x: Ref :: Chained(v, x) ==> x in w && w[x] == v[x]
  }
}
