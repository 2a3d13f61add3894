/** One lemma per kind of state change of the solver: each keeps the invariant. */
module SolverSteps {
  import opened Costs
  import opened Graphs
  import opened Closure
  import opened SolverState
  import opened SolverSeen
  import opened SolverPast

  // ---------- stored costs ----------

  lemma StoredSum(p: Problem, lat: set<Cost>, a: Cost, b: Cost)
    requires Closed(p.g, lat) && a in lat && Stored(lat, b) && Le(Fin(0.0), b)
    ensures Stored(lat, Add(a, b)) && Le(a, Add(a, b)) && Le(b, Add(a, b)) && InRange(MAX_COST, a)
  {
    assert Comes(p.g, MAX_COST, lat, a, Old);
    if Le(Add(a, b), Fin(MAX_COST)) {
      assert Comes(p.g, MAX_COST, lat, Add(a, b), Sum(a, b));
    }
  }

  lemma StoredImage(p: Problem, lat: set<Cost>, m: nat, s: Cost)
    requires GraphOk(p.g) && Closed(p.g, lat) && m < |p.g.models| && Stored(lat, s) && Le(Fin(0.0), s)
    ensures Stored(lat, Costf(p.g.models[m].k, p.g.models[m].c, s))
  {
    assert ModelOk(p.g, p.g.models[m]);
    CostfAtLeast(p.g.models[m].k, p.g.models[m].c, s);
    var v := Costf(p.g.models[m].k, p.g.models[m].c, s);
    if Le(v, Fin(MAX_COST)) {
      assert s in lat;
      assert Comes(p.g, MAX_COST, lat, ModelCostf(p.g, m, s), Image(m, s));
    }
  }

  lemma StoredPenalty(p: Problem, lat: set<Cost>, m: Ref, e: nat)
    requires GraphOk(p.g) && Closed(p.g, lat) && IsModel(p, m) && e < |ModelOf(p, m).checks|
    ensures Stored(lat, Fin(ModelOf(p, m).checks[e].penalty)) && ModelOf(p, m).checks[e].penalty >= 0.0
  {
    assert ModelOk(p.g, ModelOf(p, m));
    if ModelOf(p, m).checks[e].penalty <= MAX_COST {
      assert Fin(ModelOf(p, m).checks[e].penalty) in Generators(p.g, MAX_COST);
    }
  }

  lemma StoredNonNeg(p: Problem, lat: set<Cost>, c: Cost)
    requires Closed(p.g, lat) && Stored(lat, c)
    ensures Le(Fin(0.0), c)
  {
    if c in lat {
      assert Comes(p.g, MAX_COST, lat, c, Old);
    }
  }

  // ---------- chained variables only grow ----------

  lemma FrameKept(p: Problem, t: Truth, lat: set<Cost>, v: VarMap, w: VarMap, f: XState)
    requires GraphOk(p.g) && Extends(v, w) && FrameOk(p, t, lat, v, f)
    ensures FrameOk(p, t, lat, w, f)
  {
    if f.where == Param {
      forall e: nat, i: nat | f.edge <= e < ModelOf(p, f.m).cparam && IsParam(p, f.m, e, i)
        ensures Chained(w, ParamRef(p, f.m, e, i))
      {
        assert Chained(v, ParamRef(p, f.m, e, i));
      }
    }
  }

  lemma StackKept(p: Problem, t: Truth, lat: set<Cost>, v: VarMap, w: VarMap, stk: seq<XState>)
    requires GraphOk(p.g) && Extends(v, w) && StackOk(p, t, lat, v, stk)
    ensures StackOk(p, t, lat, w, stk)
  {
    forall k | 0 <= k < |stk|
      ensures FrameOk(p, t, lat, w, stk[k])
    {
      FrameKept(p, t, lat, v, w, stk[k]);
    }
  }

  lemma ModsKept(p: Problem, t: Truth, lat: set<Cost>, v: VarMap, w: VarMap, mm: ModMap)
    requires Extends(v, w) && ModsOk(p, t, lat, v, mm)
    ensures ModsOk(p, t, lat, w, mm)
  {
    forall m: Ref | IsModel(p, m)
      ensures ModOk(p, t, lat, w, mm, m)
    {
      assert ModOk(p, t, lat, v, mm, m);
      if mm[m].chain {
        forall e: nat, i: nat | 0 <= e < ModelOf(p, m).cparam && IsParam(p, m, e, i)
          ensures Chained(w, ParamRef(p, m, e, i))
        {
          assert Chained(v, ParamRef(p, m, e, i));
        }
      }
    }
  }

  /** A change of one unchained variable that is fine for that variable is fine for the state. */
  lemma VarChange(p: Problem, t: Truth, lat: set<Cost>, s: Search, x: Ref, sp: VarSp)
    requires StateOk(p, t, lat, s) && IsVar(p, x) && !Chained(s.v, x)
    requires VarOk(p, t, lat, s.v[x := sp], s.m, x) && (sp.st.NoChain? ==> AtMostCands(p, s.m, x, sp.cost))
    ensures StateOk(p, t, lat, s.(v := s.v[x := sp]))
    ensures Extends(s.v, s.v[x := sp])
  {
    hide FloorsOk, AtMostCands;
    var w := s.v[x := sp];
    FloorsVar(p, s.v, s.m, x, sp);
    ModsKept(p, t, lat, s.v, w, s.m);
    forall y: Ref | IsVar(p, y)
      ensures VarOk(p, t, lat, w, s.m, y)
    {
      assert VarOk(p, t, lat, s.v, s.m, y);
    }
    forall y: Ref | y in s.have
      ensures IsVar(p, y) && (Given(p.g, y.idx) || Chained(w, y))
    {
    }
  }

  // ---------- pushing and popping ----------

  function Mark(v: VarMap, x: Ref): VarMap {
    v[x := VarSp(Fin(SP_MARK), NoChain)]
  }

  lemma MarkPushed(v: VarMap, stk: seq<XState>, f: XState)
    requires MarksOk(v, stk) && !Marked(v, f.x)
    ensures MarksOk(Mark(v, f.x), stk + [f])
  {
    var w, stk' := Mark(v, f.x), stk + [f];
    assert stk'[|stk|] == f;
    forall x: Ref | Marked(w, x)
      ensures exists k :: 0 <= k < |stk'| && stk'[k].x == x
    {
      if x != f.x {
        assert Marked(v, x);
        var k :| 0 <= k < |stk| && stk[k].x == x;
        assert stk'[k].x == x;
      }
    }
    forall j, k | 0 <= j < k < |stk'|
      ensures stk'[j].x != stk'[k].x
    {
      assert Marked(v, stk[j].x);
    }
  }

  lemma SnapPushed(p: Problem, lat: set<Cost>, mm: ModMap, stk: seq<XState>, snaps: seq<ModMap>, f: XState)
    requires SnapsOk(p, lat, mm, stk, snaps) && f.where == Candidate
    requires forall m: Ref :: IsModel(p, m) ==> m in mm && Stored(lat, mm[m].cost)
    ensures SnapsOk(p, lat, mm, stk + [f], snaps + [mm])
  {
    assert Below(mm, mm);
    var stk', snaps' := stk + [f], snaps + [mm];
    forall j, k | 0 <= j < k < |snaps'|
      ensures Below(snaps'[j], snaps'[k])
    {
      assert snaps'[j] == snaps[j];
    }
  }

  lemma Push(p: Problem, t: Truth, lat: set<Cost>, s: Search, snaps: seq<ModMap>, f: XState)
    requires InvOf(p, t, lat, s, snaps)
    requires GraphOk(p.g) && FrameOk(p, t, lat, s.v, f) && f.where == Candidate && |s.stk| + 1 < MAX_STK
    requires !Chained(s.v, f.x) && !Marked(s.v, f.x) && f.start == NextStart(s.stk)
    requires f.x in s.v && Done(s.v[f.x]) ==> f.beta == MAX_COST
    requires if s.stk == [] then f.beta == MAX_COST
             else Waiting(p, s.stk[|s.stk| - 1], f.x, f.beta) && Pending(p, s.b, s.stk[|s.stk| - 1])
    ensures InvOf(p, t, lat, s.(v := Mark(s.v, f.x), stk := s.stk + [f]), snaps + [s.m])
    ensures Extends(s.v, Mark(s.v, f.x))
  {
    hide Setup, VarsOk, ModsOk, AllBitsOk, HaveOk, FrameOk, Waiting, Pending, MarksOk, WorkOk, StartsOk, EndsOk,
        ModelsSeen, SnapsOk, PastOk, FloorsOk;
    var w := Mark(s.v, f.x);
    PastMarked(p, t, s.v, s.m, s.past, f.x);
    PushedVar(p, t, lat, s, f);
    StackKept(p, t, lat, s.v, w, s.stk);
    FrameKept(p, t, lat, s.v, w, f);
    MarkPushed(s.v, s.stk, f);
    SnapPushed(p, lat, s.m, s.stk, snaps, f);
    StackPushed(p, t, lat, w, s.stk, f);
    WorkPushed(p, s.m, s.b, s.stk, f);
    StartsPushed(s.stk, f);
    EndsPushed(p, s.v, w, s.stk, s.b, s.dead, f);
  }

  lemma PushedVar(p: Problem, t: Truth, lat: set<Cost>, s: Search, f: XState)
    requires StateOk(p, t, lat, s) && GraphOk(p.g) && FrameOk(p, t, lat, s.v, f) && !Chained(s.v, f.x)
    ensures StateOk(p, t, lat, s.(v := Mark(s.v, f.x))) && Extends(s.v, Mark(s.v, f.x))
    ensures forall m: Ref :: IsModel(p, m) ==> m in s.m && Stored(lat, s.m[m].cost)
  {
    hide FloorsOk, AtMostCands;
    SolutionNonNeg(p, t);
    MarkFloor(p, t, lat, s.v, s.m, f.x);
    VarChange(p, t, lat, s, f.x, VarSp(Fin(SP_MARK), NoChain));
    assert forall m: Ref :: IsModel(p, m) ==> ModOk(p, t, lat, s.v, s.m, m);
  }

  lemma StackPushed(p: Problem, t: Truth, lat: set<Cost>, v: VarMap, stk: seq<XState>, f: XState)
    requires GraphOk(p.g) && StackOk(p, t, lat, v, stk) && FrameOk(p, t, lat, v, f) && |stk| + 1 < MAX_STK
    requires if stk == [] then f.beta == MAX_COST else Waiting(p, stk[|stk| - 1], f.x, f.beta)
    ensures StackOk(p, t, lat, v, stk + [f])
  {
    hide FrameOk, Waiting;
  }

  lemma WorkPushed(p: Problem, mm: ModMap, b: BitMap, stk: seq<XState>, f: XState)
    requires WorkOk(p, mm, b, stk) && f.where == Candidate
    requires stk != [] ==> Pending(p, b, stk[|stk| - 1])
    ensures WorkOk(p, mm, b, stk + [f])
  {
    assert InProgress(p, mm, b, f);
    hide InProgress, Pending;
  }

  lemma MarkPopped(v: VarMap, stk: seq<XState>, sp: VarSp)
    requires MarksOk(v, stk) && stk != [] && sp.cost != Fin(SP_MARK)
    ensures MarksOk(v[stk[|stk| - 1].x := sp], stk[..|stk| - 1])
  {
    var x := stk[|stk| - 1].x;
    var w, rest := v[x := sp], stk[..|stk| - 1];
    forall k | 0 <= k < |rest|
      ensures Marked(w, rest[k].x)
    {
      assert rest[k] == stk[k] && Marked(v, stk[k].x) && stk[k].x != x;
    }
    forall y: Ref | Marked(w, y)
      ensures exists k :: 0 <= k < |rest| && rest[k].x == y
    {
      assert Marked(v, y);
      var k :| 0 <= k < |stk| && stk[k].x == y;
      assert rest[k].x == y;
    }
  }

  /** The topmost variable gets its cost, and maybe its chain, and leaves the stack. */
  lemma Pop(p: Problem, t: Truth, lat: set<Cost>, s: Search, snaps: seq<ModMap>, sp: VarSp)
    requires InvOf(p, t, lat, s, snaps) && s.stk != []
    requires VarOk(p, t, lat, s.v[s.stk[|s.stk| - 1].x := sp], s.m, s.stk[|s.stk| - 1].x) && sp.cost != Fin(SP_MARK)
    requires sp.st.NoChain? ==>
        Lt(Fin(s.stk[|s.stk| - 1].beta), sp.cost) && LeastCand(p, s.m, s.stk[|s.stk| - 1].x, sp.cost)
    ensures InvOf(p, t, lat, s.(v := s.v[s.stk[|s.stk| - 1].x := sp], stk := s.stk[..|s.stk| - 1]),
        snaps[..|s.stk| - 1])
    ensures Extends(s.v, s.v[s.stk[|s.stk| - 1].x := sp])
  {
    hide Setup, VarsOk, ModsOk, AllBitsOk, HaveOk, FrameOk, Waiting, MarksOk, WorkOk, SnapsOk, StartsOk, ModelsSeen,
        EndsOk, PastOk, FloorsOk, LeastCand, Extends, VarOk;
    var x := s.stk[|s.stk| - 1].x;
    var w := s.v[x := sp];
    PoppedTop(p, t, lat, s, snaps, sp);
    VarChange(p, t, lat, s, x, sp);
    StackKept(p, t, lat, s.v, w, s.stk);
    MarkPopped(s.v, s.stk, sp);
    StackPopped(p, t, lat, w, s.stk);
    WorkPopped(p, s.m, s.b, s.stk);
    SnapPopped(p, lat, s.m, s.stk, snaps);
    StartsPopped(s.stk);
    EndsPopped(p, s.v, s.stk, s.b, s.dead, sp);
    PastPopped(p, t, s.v, s.m, s.past, x, sp);
  }

  lemma PoppedTop(p: Problem, t: Truth, lat: set<Cost>, s: Search, snaps: seq<ModMap>, sp: VarSp)
    requires InvOf(p, t, lat, s, snaps) && s.stk != []
    requires VarOk(p, t, lat, s.v[s.stk[|s.stk| - 1].x := sp], s.m, s.stk[|s.stk| - 1].x)
    requires sp.st.NoChain? ==> LeastCand(p, s.m, s.stk[|s.stk| - 1].x, sp.cost)
    ensures var x := s.stk[|s.stk| - 1].x;
      && IsVar(p, x) && Marked(s.v, x) && !Chained(s.v, x) && x in s.v && |snaps| == |s.stk| && GraphOk(p.g)
      && (if sp.st.Chain? then sp.cost == t.v(x) else AtMostCands(p, s.m, x, sp.cost))
  {
    hide Setup, ModsOk, AllBitsOk, HaveOk, WorkOk, StartsOk, SeenOk, PastOk, FloorsOk, AtMostCands, ChainOk;
    SetupFormed(p, t, lat);
    assert FrameOk(p, t, lat, s.v, s.stk[|s.stk| - 1]) && VarOk(p, t, lat, s.v, s.m, s.stk[|s.stk| - 1].x);
  }

  lemma SetupFormed(p: Problem, t: Truth, lat: set<Cost>)
    requires Setup(p, t, lat)
    ensures GraphOk(p.g)
  {
  }

  lemma StackPopped(p: Problem, t: Truth, lat: set<Cost>, v: VarMap, stk: seq<XState>)
    requires GraphOk(p.g) && StackOk(p, t, lat, v, stk) && stk != []
    ensures StackOk(p, t, lat, v, stk[..|stk| - 1])
  {
    hide FrameOk, Waiting;
  }

  lemma WorkPopped(p: Problem, mm: ModMap, b: BitMap, stk: seq<XState>)
    requires WorkOk(p, mm, b, stk) && stk != []
    ensures WorkOk(p, mm, b, stk[..|stk| - 1])
  {
    hide InProgress, Pending;
  }

  lemma SnapPopped(p: Problem, lat: set<Cost>, mm: ModMap, stk: seq<XState>, snaps: seq<ModMap>)
    requires SnapsOk(p, lat, mm, stk, snaps) && stk != []
    ensures SnapsOk(p, lat, mm, stk[..|stk| - 1], snaps[..|stk| - 1])
  {
    hide Below, Stored;
  }

  // ---------- the frame at the top moves on ----------

  function SetTop<T>(s: seq<T>, x: T): (r: seq<T>)
    requires s != []
    ensures |r| == |s| && r[|s| - 1] == x && r[..|s| - 1] == s[..|s| - 1]
    ensures forall i :: 0 <= i < |s| - 1 ==> r[i] == s[i]
  {
    s[|s| - 1 := x]
  }

  lemma StackMoved(p: Problem, t: Truth, lat: set<Cost>, v: VarMap, stk: seq<XState>, f: XState)
    requires GraphOk(p.g) && StackOk(p, t, lat, v, stk) && stk != []
    requires FrameOk(p, t, lat, v, f) && f.x == stk[|stk| - 1].x && f.beta == stk[|stk| - 1].beta
    ensures StackOk(p, t, lat, v, SetTop(stk, f))
  {
    var stk' := SetTop(stk, f);
    forall k | 0 < k < |stk'|
      ensures Waiting(p, stk'[k - 1], stk'[k].x, stk'[k].beta)
    {
      assert Waiting(p, stk[k - 1], stk[k].x, stk[k].beta);
    }
    hide FrameOk, Waiting;
  }

  lemma MarkMoved(v: VarMap, stk: seq<XState>, f: XState)
    requires MarksOk(v, stk) && stk != [] && f.x == stk[|stk| - 1].x
    ensures MarksOk(v, SetTop(stk, f))
  {
    var stk' := SetTop(stk, f);
    assert forall k :: 0 <= k < |stk| ==> stk'[k].x == stk[k].x;
    forall x: Ref | Marked(v, x)
      ensures exists k :: 0 <= k < |stk'| && stk'[k].x == x
    {
      var k :| 0 <= k < |stk| && stk[k].x == x;
      assert stk'[k].x == x;
    }
  }

  lemma WorkMoved(p: Problem, mm: ModMap, b: BitMap, stk: seq<XState>, f: XState)
    requires WorkOk(p, mm, b, stk) && stk != [] && InProgress(p, mm, b, f)
    ensures WorkOk(p, mm, b, SetTop(stk, f))
  {
    hide InProgress, Pending;
  }

  lemma SnapMoved(p: Problem, lat: set<Cost>, mm: ModMap, stk: seq<XState>, snaps: seq<ModMap>, f: XState)
    requires SnapsOk(p, lat, mm, stk, snaps) && stk != []
    requires f.where != Candidate ==> f.m in snaps[|stk| - 1] && Le(snaps[|stk| - 1][f.m].cost, Fin(f.mbeta))
    ensures SnapsOk(p, lat, mm, SetTop(stk, f), snaps)
  {
    hide Below, Stored;
  }

  /** The top frame advances without touching the search state. */
  lemma Move(p: Problem, t: Truth, lat: set<Cost>, s: Search, snaps: seq<ModMap>, f: XState)
    requires InvOf(p, t, lat, s, snaps) && s.stk != []
    requires FrameOk(p, t, lat, s.v, f) && InProgress(p, s.m, s.b, f)
    requires f.x == s.stk[|s.stk| - 1].x && f.beta == s.stk[|s.stk| - 1].beta && f.start == s.stk[|s.stk| - 1].start
    requires f.where != Candidate ==> f.m in snaps[|s.stk| - 1] && Le(snaps[|s.stk| - 1][f.m].cost, Fin(f.mbeta))
    ensures InvOf(p, t, lat, s.(stk := SetTop(s.stk, f)), snaps)
  {
    hide IsSolution, Closed, StartBounds, VarsOk, ModsOk, AllBitsOk, HaveOk, FrameOk, InProgress, Waiting, MarksOk,
        WorkOk, SnapsOk, StartsOk, EndsOk, ModelsSeen, PastOk, FloorsOk;
    StackMoved(p, t, lat, s.v, s.stk, f);
    MarkMoved(s.v, s.stk, f);
    WorkMoved(p, s.m, s.b, s.stk, f);
    SnapMoved(p, lat, s.m, s.stk, snaps, f);
    StartsMoved(s.stk, f);
    EndsMoved(p, s.v, s.stk, s.b, s.dead, f);
  }

  lemma SnapReset(p: Problem, lat: set<Cost>, mm: ModMap, stk: seq<XState>, snaps: seq<ModMap>)
    requires SnapsOk(p, lat, mm, stk, snaps) && stk != [] && stk[|stk| - 1].where == Candidate
    requires forall m: Ref :: IsModel(p, m) ==> m in mm && Stored(lat, mm[m].cost)
    ensures SnapsOk(p, lat, mm, stk, SetTop(snaps, mm))
  {
    assert Below(mm, mm);
    var snaps' := SetTop(snaps, mm);
    hide Below, Stored;
    forall j, k | 0 <= j < k < |snaps'|
      ensures Below(snaps'[j], snaps'[k])
    {
      assert snaps'[j] == snaps[j];
      assert Below(snaps[j], snaps[k]) && Below(snaps[j], mm);
    }
  }

  /** A frame about to select a candidate takes a fresh snapshot. */
  lemma Resnap(p: Problem, t: Truth, lat: set<Cost>, s: Search, snaps: seq<ModMap>)
    requires InvOf(p, t, lat, s, snaps) && s.stk != [] && s.stk[|s.stk| - 1].where == Candidate
    ensures InvOf(p, t, lat, s, SetTop(snaps, s.m))
  {
    assert forall m: Ref :: IsModel(p, m) ==> ModOk(p, t, lat, s.v, s.m, m);
    SnapReset(p, lat, s.m, s.stk, snaps);
  }

  // ---------- model bounds and chains ----------

  /** A model without a chain gets a new lower bound, or its exact cost and chain. */
  lemma ModChange(p: Problem, t: Truth, lat: set<Cost>, s: Search, m: Ref, sp: ModSp)
    requires StateOk(p, t, lat, s) && IsModel(p, m) && m in s.m && !s.m[m].chain && Le(s.m[m].cost, sp.cost)
    requires ModOk(p, t, lat, s.v, s.m[m := sp], m)
    ensures StateOk(p, t, lat, s.(m := s.m[m := sp]))
  {
    hide FloorsOk;
    FloorsRaised(p, s.v, s.m, m, sp);
    var mm := s.m[m := sp];
    forall x: Ref | IsVar(p, x)
      ensures VarOk(p, t, lat, s.v, mm, x)
    {
      assert VarOk(p, t, lat, s.v, s.m, x);
    }
    forall n: Ref | IsModel(p, n)
      ensures ModOk(p, t, lat, s.v, mm, n)
    {
      assert ModOk(p, t, lat, s.v, s.m, n);
    }
  }

  /** A check that still waits has not been walked. */
  lemma PendingNotSeen(p: Problem, t: Truth, lat: set<Cost>, b: BitMap, f: XState)
    requires GraphOk(p.g) && f.where == Shadow && Pending(p, b, f)
    requires IsModel(p, f.m) && f.edge < |ModelOf(p, f.m).checks| && f.it <= |CheckInsts(p, f.m, f.edge)|
    requires FirstPassed(p, b, f.m, f.edge, f.it)
    ensures !CheckSeen(p, b, f.m, f.edge)
  {
    assert HasBits(b, CheckRef(p, f.m, f.edge, f.it), Unevaluated);
    assert forall i: nat :: f.it < i <= |CheckInsts(p, f.m, f.edge)| ==> !FirstPassed(p, b, f.m, f.edge, i);
  }

  /** A model with a parameter that still waits has unchained parameters. */
  lemma WaitingNotChained(p: Problem, v: VarMap, f: XState, x: Ref, beta: real)
    requires GraphOk(p.g) && f.where == Param && Waiting(p, f, x, beta) && !Chained(v, x)
    requires f.edge <= ModelOf(p, f.m).cparam
    ensures !ParamsChained(p, v, f.m, 0)
  {
    assert IsParam(p, f.m, f.edge - 1, f.it);
  }

  /** Another frame that works on the same model cannot be past its end. */
  lemma NotFinishedTwice(p: Problem, t: Truth, lat: set<Cost>, s: Search, snaps: seq<ModMap>, k: nat, m: Ref)
    requires InvOf(p, t, lat, s, snaps) && k < |s.stk| - 1
    requires IsModel(p, m) && ChecksSeen(p, s.b, m, |ModelOf(p, m).checks|) && ParamsChained(p, s.v, m, 0)
    ensures s.stk[k].where == Candidate || s.stk[k].m != m
  {
    var f, g := s.stk[k], s.stk[k + 1];
    assert Waiting(p, f, g.x, g.beta) && Pending(p, s.b, f) && InProgress(p, s.m, s.b, f);
    assert !Chained(s.v, g.x) by {
      assert FrameOk(p, t, lat, s.v, g) && Marked(s.v, g.x);
      assert VarOk(p, t, lat, s.v, s.m, g.x);
    }
    assert FrameOk(p, t, lat, s.v, f);
    hide StateOk, StackOk, WorkOk, MarksOk, SnapsOk;
    if f.where == Param {
      WaitingNotChained(p, s.v, f, g.x, g.beta);
    } else if f.where == Shadow {
      PendingNotSeen(p, t, lat, s.b, f);
    }
  }

  lemma BelowRaised(a: ModMap, b: ModMap, m: Ref, sp: ModSp)
    requires Below(a, b) && m in a && Le(a[m].cost, sp.cost)
    ensures Below(a, b[m := sp])
  {
  }

  /** Raising the model of the top frame above `mbeta` keeps all snapshots below. */
  lemma SnapRaised(p: Problem, lat: set<Cost>, mm: ModMap, stk: seq<XState>, snaps: seq<ModMap>, sp: ModSp)
    requires SnapsOk(p, lat, mm, stk, snaps) && stk != [] && stk[|stk| - 1].where != Candidate
    requires Le(snaps[|stk| - 1][stk[|stk| - 1].m].cost, sp.cost)
    ensures SnapsOk(p, lat, mm[stk[|stk| - 1].m := sp], SetTop(stk, stk[|stk| - 1].(where := Candidate)), snaps)
  {
    var n := |stk| - 1;
    var m := stk[n].m;
    forall k | 0 <= k < |snaps|
      ensures Below(snaps[k], mm[m := sp])
    {
      assert k < n ==> Below(snaps[k], snaps[n]);
      BelowRaised(snaps[k], mm, m, sp);
    }
  }

  lemma WorkRaised(p: Problem, mm: ModMap, b: BitMap, stk: seq<XState>, sp: ModSp)
    requires WorkOk(p, mm, b, stk) && stk != []
    requires if sp.chain
             then forall k :: 0 <= k < |stk| - 1 ==> stk[k].where == Candidate || stk[k].m != stk[|stk| - 1].m
             else WithinOthers(stk, stk[|stk| - 1].m, sp.cost)
    ensures WorkOk(p, mm[stk[|stk| - 1].m := sp], b, SetTop(stk, stk[|stk| - 1].(where := Candidate)))
  {
    var n := |stk| - 1;
    var mm', stk' := mm[stk[n].m := sp], SetTop(stk, stk[n].(where := Candidate));
    forall k | 0 <= k < |stk'|
      ensures InProgress(p, mm', b, stk'[k])
    {
      assert InProgress(p, mm, b, stk[k]);
    }
    forall k | 0 <= k < |stk'| - 1
      ensures Pending(p, b, stk'[k])
    {
      assert Pending(p, b, stk[k]);
    }
  }

  lemma AloneAtEnd(p: Problem, t: Truth, lat: set<Cost>, s: Search, snaps: seq<ModMap>, m: Ref)
    requires InvOf(p, t, lat, s, snaps) && IsModel(p, m)
    requires ChecksSeen(p, s.b, m, |ModelOf(p, m).checks|) && ParamsChained(p, s.v, m, 0)
    ensures forall k :: 0 <= k < |s.stk| - 1 ==> s.stk[k].where == Candidate || s.stk[k].m != m
  {
    forall k | 0 <= k < |s.stk| - 1
      ensures s.stk[k].where == Candidate || s.stk[k].m != m
    {
      NotFinishedTwice(p, t, lat, s, snaps, k, m);
    }
  }

  /** For other frames that work on `m`, too, the bound `c` is within `mbeta`. */
  predicate WithinOthers(stk: seq<XState>, m: Ref, c: Cost) {
    forall k :: 0 <= k < |stk| - 1 && stk[k].where != Candidate && stk[k].m == m ==> Le(c, Fin(stk[k].mbeta))
  }

  lemma SettleStack(p: Problem, t: Truth, lat: set<Cost>, v: VarMap, stk: seq<XState>, f: XState)
    requires GraphOk(p.g) && StackOk(p, t, lat, v, stk) && MarksOk(v, stk) && stk != [] && f == stk[|stk| - 1]
    ensures StackOk(p, t, lat, v, SetTop(stk, f.(where := Candidate)))
    ensures MarksOk(v, SetTop(stk, f.(where := Candidate)))
  {
    assert FrameOk(p, t, lat, v, f);
    StackMoved(p, t, lat, v, stk, f.(where := Candidate));
    MarkMoved(v, stk, f.(where := Candidate));
  }

  /** The candidate of the top frame is given up, or settled: the frame is back at selection. */
  lemma Settle(p: Problem, t: Truth, lat: set<Cost>, s: Search, snaps: seq<ModMap>, f: XState, sp: ModSp)
    requires InvOf(p, t, lat, s, snaps) && s.stk != [] && f == s.stk[|s.stk| - 1] && f.where != Candidate
    requires IsModel(p, f.m) && ModOk(p, t, lat, s.v, s.m[f.m := sp], f.m)
    requires sp.chain ==> ChecksSeen(p, s.b, f.m, |ModelOf(p, f.m).checks|)
    requires Le(s.m[f.m].cost, sp.cost) && (!sp.chain ==> WithinOthers(s.stk, f.m, sp.cost))
    requires f.m in snaps[|s.stk| - 1] && Le(snaps[|s.stk| - 1][f.m].cost, sp.cost)
    ensures InvOf(p, t, lat, s.(m := s.m[f.m := sp], stk := SetTop(s.stk, f.(where := Candidate))), snaps)
  {
    hide IsSolution, Closed, StartBounds, VarsOk, ModsOk, AllBitsOk, HaveOk, FrameOk, Waiting, MarksOk, StartsOk,
        EndsOk, ModelsSeen, ChecksSeen, PastOk, FloorsOk;
    assert InProgress(p, s.m, s.b, f);
    ModChange(p, t, lat, s, f.m, sp);
    SettleStack(p, t, lat, s.v, s.stk, f);
    SnapRaised(p, lat, s.m, s.stk, snaps, sp);
    if sp.chain {
      AloneAtEnd(p, t, lat, s, snaps, f.m);
    }
    WorkRaised(p, s.m, s.b, s.stk, sp);
    StartsMoved(s.stk, f.(where := Candidate));
    EndsMoved(p, s.v, s.stk, s.b, s.dead, f.(where := Candidate));
    SeenRaised(p, s.m, s.b, f.m, sp);
    PastRaised(p, t, s.v, s.m, s.past, f.m, sp);
  }

  // ---------- check bits ----------

  lemma SeenKept(p: Problem, b: BitMap, w: Ref, bits: Bits, m: Ref, e: nat)
    requires IsModel(p, m) && e < |ModelOf(p, m).checks|
    requires HasBits(b, w, Unevaluated) && CheckSeen(p, b, m, e)
    ensures CheckSeen(p, b[w := bits], m, e)
  {
    var b' := b[w := bits];
    if i: nat :| i < |CheckInsts(p, m, e)| && HasBits(b, CheckRef(p, m, e, i), Failed) && FirstPassed(p, b, m, e, i) {
      assert HasBits(b', CheckRef(p, m, e, i), Failed) && FirstPassed(p, b', m, e, i);
    } else {
      assert FirstPassed(p, b', m, e, |CheckInsts(p, m, e)|);
    }
  }

  lemma ProgressKept(p: Problem, mm: ModMap, b: BitMap, w: Ref, bits: Bits, f: XState)
    requires HasBits(b, w, Unevaluated) && InProgress(p, mm, b, f)
    ensures InProgress(p, mm, b[w := bits], f)
  {
    if f.where != Candidate {
      var n := if f.where == Shadow then f.edge else |ModelOf(p, f.m).checks|;
      var b' := b[w := bits];
      forall e: nat | e < n
        ensures CheckSeen(p, b', f.m, e)
      {
        SeenKept(p, b, w, bits, f.m, e);
      }
    }
  }

  /** A first evaluation of a shadow instance that no suspended frame waits for. */
  lemma BitChange(p: Problem, t: Truth, lat: set<Cost>, s: Search, snaps: seq<ModMap>, w: Ref, bits: Bits)
    requires InvOf(p, t, lat, s, snaps) && IsShadow(p, w) && HasBits(s.b, w, Unevaluated)
    requires BitsOk(p, t, s.b[w := bits], w) && (bits.Failed? ==> Ending(p, s.v, s.stk, Guarded(p, w)))
    requires forall k :: 0 <= k < |s.stk| - 1 && s.stk[k].where == Shadow ==> s.stk[k + 1].x != Guarded(p, w)
    ensures InvOf(p, t, lat, s.(b := s.b[w := bits]), snaps)
  {
    hide IsSolution, Closed, StartBounds, VarsOk, ModsOk, HaveOk, StackOk, MarksOk, WorkOk, SnapsOk, StartsOk, SeenOk,
        Ending, HasBits, PastOk, FloorsOk;
    var b := s.b[w := bits];
    StillWorking(p, t, lat, s, w, bits);
    forall u: Ref | IsShadow(p, u)
      ensures BitsOk(p, t, b, u)
    {
      assert BitsOk(p, t, s.b, u);
    }
    SeenBit(p, s, w, bits);
  }

  lemma StillWorking(p: Problem, t: Truth, lat: set<Cost>, s: Search, w: Ref, bits: Bits)
    requires GraphOk(p.g) && StackOk(p, t, lat, s.v, s.stk) && WorkOk(p, s.m, s.b, s.stk) && IsShadow(p, w)
    requires HasBits(s.b, w, Unevaluated)
    requires forall k :: 0 <= k < |s.stk| - 1 && s.stk[k].where == Shadow ==> s.stk[k + 1].x != Guarded(p, w)
    ensures WorkOk(p, s.m, s.b[w := bits], s.stk)
  {
    hide FrameOk, InProgress;
    var b := s.b[w := bits];
    forall k | 0 <= k < |s.stk|
      ensures InProgress(p, s.m, b, s.stk[k])
    {
      ProgressKept(p, s.m, s.b, w, bits, s.stk[k]);
    }
    forall k | 0 <= k < |s.stk| - 1
      ensures Pending(p, b, s.stk[k])
    {
      assert Pending(p, s.b, s.stk[k]);
      assert Waiting(p, s.stk[k], s.stk[k + 1].x, s.stk[k + 1].beta);
    }
  }

  /** A first evaluation undoes nothing that was seen. */
  lemma SeenBit(p: Problem, s: Search, w: Ref, bits: Bits)
    requires SeenOk(p, s) && IsShadow(p, w) && HasBits(s.b, w, Unevaluated)
    requires (bits.Failed? ==> Ending(p, s.v, s.stk, Guarded(p, w)))
    ensures SeenOk(p, s.(b := s.b[w := bits]))
  {
    var b := s.b[w := bits];
    forall m: Ref, e: nat | IsModel(p, m) && m in s.m && s.m[m].chain && e < |ModelOf(p, m).checks|
      ensures CheckSeen(p, b, m, e)
    {
      assert ChecksSeen(p, s.b, m, |ModelOf(p, m).checks|);
      SeenKept(p, s.b, w, bits, m, e);
    }
    hide CheckSeen, Ending;
  }
}
