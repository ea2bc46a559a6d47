/**
 A league of thread teams over shared memory, at the granularity of single loads
 and stores. Within a phase the work items of a team run concurrently; a barrier
 ends the phase once every item of the team has finished. Teams are not
 synchronised with each other.

 The main result: when no item touches a cell that a concurrent item writes, each
 item behaves in every interleaving as if it ran alone on the memory at the start
 of its phase.
 */
module BarrierMachine {
  import opened Scalars

  /** A work item is a straight line of memory accesses. The private state of a
      thread is the list of values it has loaded; a store computes its value from it. */
  datatype Instr<L> = Load(src: L) | Store(dst: L, value: seq<Complex> -> Complex)

  type Memory<L> = map<L, Complex>

  function Get<L>(m: Memory<L>, l: L): Complex {
    if l in m then m[l] else Zero
  }

  /** What a thread loaded as the n-th value. */
  function LogAt(log: seq<Complex>, n: int): Complex {
    if 0 <= n < |log| then log[n] else Zero
  }

  function Cell<L>(i: Instr<L>): L {
    match i
    case Load(l) => l
    case Store(l, _) => l
  }

  ghost predicate Stores<L>(prog: seq<Instr<L>>, l: L) {
    exists n :: 0 <= n < |prog| && prog[n].Store? && Cell(prog[n]) == l
  }

  ghost predicate Touches<L>(prog: seq<Instr<L>>, l: L) {
    exists n :: 0 <= n < |prog| && Cell(prog[n]) == l
  }

  /** active: the work items of a team in a phase; prog: what an item executes. */
  datatype Kernel<!I, !L> =
    Kernel(teams: nat, phases: nat, active: (int, int, I) -> bool, prog: (int, int, I) -> seq<Instr<L>>)

  datatype Thread = Thread(pc: nat, log: seq<Complex>)

  /** start is the memory when the phase began; it is history, no step reads it. */
  datatype TeamState<I, L> = TeamState(phase: nat, threads: map<I, Thread>, start: Memory<L>)

  datatype State<I, L> = State(mem: Memory<L>, teams: seq<TeamState<I, L>>)

  datatype Event<I> = Access(team: nat, item: I) | Barrier(team: nat)

  function ThreadOf<I, L>(ts: TeamState<I, L>, i: I): Thread {
    if i in ts.threads then ts.threads[i] else Thread(0, [])
  }

  ghost predicate Done<I(!new), L>(k: Kernel<I, L>, t: int, ts: TeamState<I, L>) {
    forall i :: k.active(t, ts.phase, i) ==> ThreadOf(ts, i).pc == |k.prog(t, ts.phase, i)|
  }

  ghost predicate Enabled<I(!new), L>(k: Kernel<I, L>, s: State<I, L>, e: Event<I>) {
    && e.team < |s.teams|
    && s.teams[e.team].phase < k.phases
    && match e
       case Access(t, i) =>
         k.active(t, s.teams[t].phase, i) && ThreadOf(s.teams[t], i).pc < |k.prog(t, s.teams[t].phase, i)|
       case Barrier(t) => Done(k, t, s.teams[t])
  }

  ghost function Next<I(!new), L>(k: Kernel<I, L>, s: State<I, L>, e: Event<I>): State<I, L>
    requires Enabled(k, s, e)
  {
    var ts := s.teams[e.team];
    match e
    case Barrier(t) =>
      s.(teams := s.teams[t := TeamState(ts.phase + 1, map[], s.mem)])
    case Access(t, i) =>
      var th := ThreadOf(ts, i);
      match k.prog(t, ts.phase, i)[th.pc]
      case Load(l) =>
        s.(teams := s.teams[t := ts.(threads := ts.threads[i := Thread(th.pc + 1, th.log + [Get(s.mem, l)])])])
      case Store(l, value) =>
        State(s.mem[l := value(th.log)], s.teams[t := ts.(threads := ts.threads[i := Thread(th.pc + 1, th.log)])])
  }

  ghost function Initial<I, L>(k: Kernel<I, L>, mem: Memory<L>): State<I, L> {
    State(mem, seq(k.teams, t => TeamState(0, map[], mem)))
  }

  /** s is reached from the initial state by taking the events in order. */
  ghost predicate Reaches<I(!new), L(!new)>(k: Kernel<I, L>, mem: Memory<L>, events: seq<Event<I>>, s: State<I, L>) {
    if events == [] then
      s == Initial(k, mem)
    else
      var n := |events| - 1;
      exists p :: Reaches(k, mem, events[..n], p) && Enabled(k, p, events[n]) && s == Next(k, p, events[n])
  }

  ghost predicate Finished<I, L>(k: Kernel<I, L>, s: State<I, L>) {
    forall t :: 0 <= t < |s.teams| ==> s.teams[t].phase == k.phases
  }

  // ------------------------------------------------------------------
  // One item on its own
  // ------------------------------------------------------------------

  datatype Local<L> = Local(log: seq<Complex>, mem: Memory<L>)

  /** The first n accesses of an item running alone. */
  ghost function Solo<L>(prog: seq<Instr<L>>, mem: Memory<L>, n: nat): Local<L>
    requires n <= |prog|
  {
    if n == 0 then
      Local([], mem)
    else
      var r := Solo(prog, mem, n - 1);
      match prog[n - 1]
      case Load(l) => r.(log := r.log + [Get(r.mem, l)])
      case Store(l, value) => r.(mem := r.mem[l := value(r.log)])
  }

  lemma {:induction false} SoloFrame<L>(prog: seq<Instr<L>>, mem: Memory<L>, n: nat, l: L)
    requires n <= |prog| && !Stores(prog, l)
    ensures Get(Solo(prog, mem, n).mem, l) == Get(mem, l)
  {
    if n > 0 {
      SoloFrame(prog, mem, n - 1, l);
      assert prog[n - 1].Store? ==> Cell(prog[n - 1]) != l;
    }
  }

  /** Loads leave memory alone and log what they loaded. */
  lemma {:induction false} LoadsOnly<L>(prog: seq<Instr<L>>, mem: Memory<L>, n: nat)
    requires n <= |prog| && forall k :: 0 <= k < n ==> prog[k].Load?
    ensures Solo(prog, mem, n).mem == mem && |Solo(prog, mem, n).log| == n
    ensures forall k :: 0 <= k < n ==> Solo(prog, mem, n).log[k] == Get(mem, Cell(prog[k]))
  {
    if n > 0 {
      LoadsOnly(prog, mem, n - 1);
    }
  }

  // ------------------------------------------------------------------
  // Race freedom
  // ------------------------------------------------------------------

  /** Between two barriers no item touches a cell that another item of its team writes. */
  ghost predicate ItemsIndependent<I(!new), L(!new)>(k: Kernel<I, L>) {
    forall t, p, i, j, l ::
      (k.active(t, p, i) && k.active(t, p, j) && i != j && Stores(k.prog(t, p, i), l)) ==>
        !Touches(k.prog(t, p, j), l)
  }

  /** No team ever touches a cell that another team writes. */
  ghost predicate TeamsIndependent<I(!new), L(!new)>(k: Kernel<I, L>) {
    forall t, p, i, t', p', i', l ::
      (t != t' && k.active(t, p, i) && k.active(t', p', i') && Stores(k.prog(t, p, i), l)) ==>
        !Touches(k.prog(t', p', i'), l)
  }

  ghost predicate RaceFree<I(!new), L(!new)>(k: Kernel<I, L>) {
    ItemsIndependent(k) && TeamsIndependent(k)
  }

  /** No team other than t writes l. */
  ghost predicate NotForeign<I(!new), L>(k: Kernel<I, L>, t: int, l: L) {
    forall t', p, i :: t' != t && k.active(t', p, i) ==> !Stores(k.prog(t', p, i), l)
  }

  /** No item of team t writes l in phase p. */
  ghost predicate Quiet<I(!new), L>(k: Kernel<I, L>, t: int, p: int, l: L) {
    forall i :: k.active(t, p, i) ==> !Stores(k.prog(t, p, i), l)
  }

  /** What a team has made of its phase by the time memory is m: every item as far as
      it got on its own from the start of the phase, every other cell unchanged. */
  ghost predicate TeamView<I(!new), L(!new)>(k: Kernel<I, L>, t: int, ts: TeamState<I, L>, m: Memory<L>) {
    && (forall i :: k.active(t, ts.phase, i) ==>
          ThreadOf(ts, i).pc <= |k.prog(t, ts.phase, i)|)
    && (forall i :: k.active(t, ts.phase, i) ==>
          ThreadOf(ts, i).log == Solo(k.prog(t, ts.phase, i), ts.start, ThreadOf(ts, i).pc).log)
    && (forall i, l :: k.active(t, ts.phase, i) && Stores(k.prog(t, ts.phase, i), l) ==>
          Get(m, l) == Get(Solo(k.prog(t, ts.phase, i), ts.start, ThreadOf(ts, i).pc).mem, l))
    && (forall l :: NotForeign(k, t, l) && Quiet(k, t, ts.phase, l) ==> Get(m, l) == Get(ts.start, l))
  }

  ghost predicate Inv<I(!new), L(!new)>(k: Kernel<I, L>, s: State<I, L>) {
    && |s.teams| == k.teams
    && forall t :: 0 <= t < |s.teams| ==> s.teams[t].phase <= k.phases && TeamView(k, t, s.teams[t], s.mem)
  }

  /** The effect of a whole phase of team t on memory, whatever the interleaving. */
  ghost predicate PhaseResult<I(!new), L(!new)>(k: Kernel<I, L>, t: int, p: int, m: Memory<L>, m': Memory<L>) {
    && (forall i, l :: k.active(t, p, i) && Stores(k.prog(t, p, i), l) ==>
          Get(m', l) == Get(Solo(k.prog(t, p, i), m, |k.prog(t, p, i)|).mem, l))
    && (forall l :: NotForeign(k, t, l) && Quiet(k, t, p, l) ==> Get(m', l) == Get(m, l))
  }

  lemma OwnedIsNotForeign<I(!new), L(!new)>(k: Kernel<I, L>, t: int, p: int, i: I, l: L)
    requires TeamsIndependent(k) && k.active(t, p, i) && Touches(k.prog(t, p, i), l)
    ensures NotForeign(k, t, l)
  {
  }

  lemma StoresTouches<L>(prog: seq<Instr<L>>, l: L)
    requires Stores(prog, l)
    ensures Touches(prog, l)
  {
  }

  /** What a thread loads is what it would load running alone. */
  lemma LoadSeesSolo<I(!new), L(!new)>(k: Kernel<I, L>, t: int, ts: TeamState<I, L>, m: Memory<L>, i: I)
    requires RaceFree(k) && TeamView(k, t, ts, m)
    requires k.active(t, ts.phase, i) && ThreadOf(ts, i).pc < |k.prog(t, ts.phase, i)|
    requires k.prog(t, ts.phase, i)[ThreadOf(ts, i).pc].Load?
    ensures Get(m, k.prog(t, ts.phase, i)[ThreadOf(ts, i).pc].src)
            == Get(Solo(k.prog(t, ts.phase, i), ts.start, ThreadOf(ts, i).pc).mem,
                   k.prog(t, ts.phase, i)[ThreadOf(ts, i).pc].src)
  {
    var prog, pc := k.prog(t, ts.phase, i), ThreadOf(ts, i).pc;
    var l := prog[pc].src;
    assert Cell(prog[pc]) == l;
    assert Touches(prog, l);
    if !Stores(prog, l) {
      OwnedIsNotForeign(k, t, ts.phase, i, l);
      assert Quiet(k, t, ts.phase, l);
      SoloFrame(prog, ts.start, pc, l);
    }
  }

  lemma LoadKeepsOwnView<I(!new), L(!new)>(k: Kernel<I, L>, s: State<I, L>, t: nat, i: I)
    requires RaceFree(k) && Inv(k, s) && Enabled(k, s, Access(t, i))
    requires k.prog(t, s.teams[t].phase, i)[ThreadOf(s.teams[t], i).pc].Load?
    ensures TeamView(k, t, Next(k, s, Access(t, i)).teams[t], Next(k, s, Access(t, i)).mem)
  {
    LoadSeesSolo(k, t, s.teams[t], s.mem, i);
  }

  /** After a store the cells that an item of the team writes are as it left them alone. */
  lemma StoreKeepsCell<I(!new), L(!new)>(k: Kernel<I, L>, s: State<I, L>, t: nat, i: I, j: I, l': L)
    requires RaceFree(k) && Inv(k, s) && Enabled(k, s, Access(t, i))
    requires k.prog(t, s.teams[t].phase, i)[ThreadOf(s.teams[t], i).pc].Store?
    requires k.active(t, s.teams[t].phase, j) && Stores(k.prog(t, s.teams[t].phase, j), l')
    ensures var s' := Next(k, s, Access(t, i));
            && ThreadOf(s'.teams[t], j).pc <= |k.prog(t, s.teams[t].phase, j)|
            && Get(s'.mem, l') ==
                  Get(Solo(k.prog(t, s.teams[t].phase, j), s.teams[t].start, ThreadOf(s'.teams[t], j).pc).mem, l')
  {
    var s' := Next(k, s, Access(t, i));
    var ts, ts' := s.teams[t], s'.teams[t];
    var prog, pc := k.prog(t, ts.phase, i), ThreadOf(ts, i).pc;
    var l := prog[pc].dst;
    assert Cell(prog[pc]) == l;
    assert Stores(prog, l);
    if j != i {
      StoresTouches(k.prog(t, ts.phase, j), l');
      assert !Touches(k.prog(t, ts.phase, j), l);
      assert Get(s'.mem, l') == Get(s.mem, l');
      assert ThreadOf(ts', j) == ThreadOf(ts, j);
    } else {
      assert ThreadOf(ts', i).pc == pc + 1;
      assert Solo(prog, ts.start, pc + 1).mem == Solo(prog, ts.start, pc).mem[l := prog[pc].value(ThreadOf(ts, i).log)];
      assert Get(s.mem, l') == Get(Solo(prog, ts.start, pc).mem, l');
    }
  }

  lemma StoreKeepsOwnView<I(!new), L(!new)>(k: Kernel<I, L>, s: State<I, L>, t: nat, i: I)
    requires RaceFree(k) && Inv(k, s) && Enabled(k, s, Access(t, i))
    requires k.prog(t, s.teams[t].phase, i)[ThreadOf(s.teams[t], i).pc].Store?
    ensures TeamView(k, t, Next(k, s, Access(t, i)).teams[t], Next(k, s, Access(t, i)).mem)
  {
    var s' := Next(k, s, Access(t, i));
    var ts := s.teams[t];
    var prog, pc := k.prog(t, ts.phase, i), ThreadOf(ts, i).pc;
    assert Cell(prog[pc]) == prog[pc].dst;
    assert Stores(prog, prog[pc].dst);
    forall j, l' | k.active(t, ts.phase, j) && Stores(k.prog(t, ts.phase, j), l')
      ensures ThreadOf(s'.teams[t], j).pc <= |k.prog(t, ts.phase, j)|
      ensures Get(s'.mem, l') == Get(Solo(k.prog(t, ts.phase, j), ts.start, ThreadOf(s'.teams[t], j).pc).mem, l')
    {
      StoreKeepsCell(k, s, t, i, j, l');
    }
    hide RaceFree, Stores;
  }

  /** A thread's own access keeps its team's view. */
  lemma AccessKeepsOwnView<I(!new), L(!new)>(k: Kernel<I, L>, s: State<I, L>, t: nat, i: I)
    requires RaceFree(k) && Inv(k, s) && Enabled(k, s, Access(t, i))
    ensures TeamView(k, t, Next(k, s, Access(t, i)).teams[t], Next(k, s, Access(t, i)).mem)
  {
    hide RaceFree, Inv, TeamView, Next;
    if k.prog(t, s.teams[t].phase, i)[ThreadOf(s.teams[t], i).pc].Load? {
      LoadKeepsOwnView(k, s, t, i);
    } else {
      StoreKeepsOwnView(k, s, t, i);
    }
  }

  /** A thread's access writes no cell that another team touches. */
  lemma ForeignWrite<I(!new), L(!new)>(k: Kernel<I, L>, s: State<I, L>, t: nat, i: I, u: nat, p: int)
    requires RaceFree(k) && Inv(k, s) && Enabled(k, s, Access(t, i)) && u != t
    ensures var m, m' := s.mem, Next(k, s, Access(t, i)).mem;
            && (forall j, l :: k.active(u, p, j) && Stores(k.prog(u, p, j), l) ==> Get(m', l) == Get(m, l))
            && (forall l :: NotForeign(k, u, l) ==> Get(m', l) == Get(m, l))
  {
    var ts := s.teams[t];
    var prog, pc := k.prog(t, ts.phase, i), ThreadOf(ts, i).pc;
    var m, m' := s.mem, Next(k, s, Access(t, i)).mem;
    if prog[pc].Store? {
      var w := prog[pc].dst;
      assert Cell(prog[pc]) == w;
      assert Stores(prog, w);
      forall j, l | k.active(u, p, j) && Stores(k.prog(u, p, j), l)
        ensures Get(m', l) == Get(m, l)
      {
        StoresTouches(k.prog(u, p, j), l);
        assert !Touches(k.prog(u, p, j), w);
      }
      assert !NotForeign(k, u, w);
    }
  }

  /** A thread's access keeps the view of every other team. */
  lemma AccessKeepsOtherView<I(!new), L(!new)>(k: Kernel<I, L>, s: State<I, L>, t: nat, i: I, u: nat)
    requires RaceFree(k) && Inv(k, s) && Enabled(k, s, Access(t, i)) && u < |s.teams| && u != t
    ensures TeamView(k, u, s.teams[u], Next(k, s, Access(t, i)).mem)
  {
    hide RaceFree, Next, Enabled, Stores, NotForeign, Quiet;
    ForeignWrite(k, s, t, i, u, s.teams[u].phase);
  }

  /** A finished phase has had its effect. */
  lemma BarrierSeesPhaseResult<I(!new), L(!new)>(k: Kernel<I, L>, s: State<I, L>, t: nat)
    requires Inv(k, s) && Enabled(k, s, Barrier(t))
    ensures PhaseResult(k, t, s.teams[t].phase, s.teams[t].start, s.mem)
  {
  }

  lemma BarrierOpensView<I(!new), L(!new)>(k: Kernel<I, L>, t: int, p: nat, m: Memory<L>)
    ensures TeamView(k, t, TeamState(p, map[], m), m)
  {
  }

  lemma InitialInv<I(!new), L(!new)>(k: Kernel<I, L>, mem: Memory<L>)
    ensures Inv(k, Initial(k, mem))
  {
    forall t | 0 <= t < k.teams
      ensures TeamView(k, t, TeamState(0, map[], mem), mem)
    {
      BarrierOpensView(k, t, 0, mem);
    }
  }

  lemma StepKeepsInv<I(!new), L(!new)>(k: Kernel<I, L>, s: State<I, L>, e: Event<I>)
    requires RaceFree(k) && Inv(k, s) && Enabled(k, s, e)
    ensures Inv(k, Next(k, s, e))
  {
    var s' := Next(k, s, e);
    forall u | 0 <= u < |s'.teams|
      ensures s'.teams[u].phase <= k.phases && TeamView(k, u, s'.teams[u], s'.mem)
    {
      match e
      case Barrier(t) =>
        BarrierOpensView(k, t, s.teams[t].phase + 1, s.mem);
      case Access(t, i) =>
        if u == t {
          AccessKeepsOwnView(k, s, t, i);
        } else {
          AccessKeepsOtherView(k, s, t, i, u);
        }
    }
  }

  /** Every state of every schedule of a race-free kernel satisfies the invariant. */
  lemma {:induction false} ReachableInv<I(!new), L(!new)>(k: Kernel<I, L>, mem: Memory<L>, events: seq<Event<I>>,
                                                          s: State<I, L>)
    requires RaceFree(k) && Reaches(k, mem, events, s)
    ensures Inv(k, s)
    decreases |events|
  {
    if events == [] {
      InitialInv(k, mem);
    } else {
      var n := |events| - 1;
      var p :| Reaches(k, mem, events[..n], p) && Enabled(k, p, events[n]) && s == Next(k, p, events[n]);
      ReachableInv(k, mem, events[..n], p);
      StepKeepsInv(k, p, events[n]);
    }
  }

  /** No barrier waits forever: until every team is through, some thread or barrier can move. */
  lemma NoDeadlock<I(!new), L(!new)>(k: Kernel<I, L>, s: State<I, L>) returns (e: Event<I>)
    requires Inv(k, s) && !Finished(k, s)
    ensures Enabled(k, s, e)
  {
    var t: nat :| t < |s.teams| && s.teams[t].phase != k.phases;
    assert s.teams[t].phase < k.phases && TeamView(k, t, s.teams[t], s.mem);
    if Done(k, t, s.teams[t]) {
      e := Barrier(t);
    } else {
      var i :| k.active(t, s.teams[t].phase, i) && ThreadOf(s.teams[t], i).pc != |k.prog(t, s.teams[t].phase, i)|;
      e := Access(t, i);
    }
  }

  // ------------------------------------------------------------------
  // All schedules agree
  // ------------------------------------------------------------------

  /** m is what the phase before p of team t can make of b. */
  ghost predicate Precedes<I(!new), L(!new)>(k: Kernel<I, L>, t: int, p: nat, b: Memory<L>, m: Memory<L>) {
    p > 0 && PhaseResult(k, t, p - 1, b, m)
  }

  /** m is a possible memory at the start of phase p of team t. */
  ghost predicate Snapshot<I(!new), L(!new)>(k: Kernel<I, L>, mem: Memory<L>, t: int, p: nat, m: Memory<L>) {
    if p == 0 then m == mem
    else exists b :: Precedes(k, t, p, b, m) && Snapshot(k, mem, t, p - 1, b)
  }

  ghost predicate AllSnapshots<I(!new), L(!new)>(k: Kernel<I, L>, mem: Memory<L>, s: State<I, L>) {
    forall t :: 0 <= t < |s.teams| ==> Snapshot(k, mem, t, s.teams[t].phase, s.teams[t].start)
  }

  lemma StepKeepsSnapshots<I(!new), L(!new)>(k: Kernel<I, L>, mem: Memory<L>, s: State<I, L>, e: Event<I>)
    requires Inv(k, s) && Enabled(k, s, e) && AllSnapshots(k, mem, s)
    ensures AllSnapshots(k, mem, Next(k, s, e))
  {
    if e.Barrier? {
      BarrierSeesPhaseResult(k, s, e.team);
      assert Precedes(k, e.team, s.teams[e.team].phase + 1, s.teams[e.team].start, s.mem);
    }
  }

  lemma {:induction false} ReachableSnapshots<I(!new), L(!new)>(k: Kernel<I, L>, mem: Memory<L>,
                                                                events: seq<Event<I>>, s: State<I, L>)
    requires RaceFree(k) && Reaches(k, mem, events, s)
    ensures AllSnapshots(k, mem, s)
    decreases |events|
  {
    if events != [] {
      hide Inv, AllSnapshots;
      var n := |events| - 1;
      var b :| Reaches(k, mem, events[..n], b) && Enabled(k, b, events[n]) && s == Next(k, b, events[n]);
      ReachableInv(k, mem, events[..n], b);
      ReachableSnapshots(k, mem, events[..n], b);
      StepKeepsSnapshots(k, mem, b, events[n]);
    }
  }

  /** The two memories agree on every cell that no team other than t writes. */
  ghost predicate AgreeFor<I(!new), L(!new)>(k: Kernel<I, L>, t: int, m: Memory<L>, m': Memory<L>) {
    forall l :: NotForeign(k, t, l) ==> Get(m, l) == Get(m', l)
  }

  lemma {:induction false} SoloCongruence<L(!new)>(prog: seq<Instr<L>>, m: Memory<L>, m': Memory<L>, n: nat)
    requires n <= |prog|
    requires forall l :: Touches(prog, l) ==> Get(m, l) == Get(m', l)
    ensures Solo(prog, m, n).log == Solo(prog, m', n).log
    ensures forall l :: Touches(prog, l) ==> Get(Solo(prog, m, n).mem, l) == Get(Solo(prog, m', n).mem, l)
  {
    if n > 0 {
      SoloCongruence(prog, m, m', n - 1);
      assert Touches(prog, Cell(prog[n - 1]));
    }
  }

  lemma PhaseResultUnique<I(!new), L(!new)>(k: Kernel<I, L>, t: int, p: int, a: Memory<L>, a': Memory<L>,
                                            b: Memory<L>, b': Memory<L>)
    requires TeamsIndependent(k) && AgreeFor(k, t, a, b)
    requires PhaseResult(k, t, p, a, a') && PhaseResult(k, t, p, b, b')
    ensures AgreeFor(k, t, a', b')
  {
    forall l | NotForeign(k, t, l)
      ensures Get(a', l) == Get(b', l)
    {
      if i :| k.active(t, p, i) && Stores(k.prog(t, p, i), l) {
        var prog := k.prog(t, p, i);
        forall c | Touches(prog, c)
          ensures Get(a, c) == Get(b, c)
        {
          OwnedIsNotForeign(k, t, p, i, c);
        }
        SoloCongruence(prog, a, b, |prog|);
        StoresTouches(prog, l);
      } else {
        assert Quiet(k, t, p, l);
      }
    }
  }

  lemma {:induction false} SnapshotUnique<I(!new), L(!new)>(k: Kernel<I, L>, mem: Memory<L>, t: int, p: nat,
                                                            a: Memory<L>, b: Memory<L>)
    requires TeamsIndependent(k) && Snapshot(k, mem, t, p, a) && Snapshot(k, mem, t, p, b)
    ensures AgreeFor(k, t, a, b)
  {
    if p > 0 {
      var a0 :| Precedes(k, t, p, a0, a) && Snapshot(k, mem, t, p - 1, a0);
      var b0 :| Precedes(k, t, p, b0, b) && Snapshot(k, mem, t, p - 1, b0);
      SnapshotUnique(k, mem, t, p - 1, a0, b0);
      PhaseResultUnique(k, t, p - 1, a0, a, b0, b);
    }
  }

  /** There is at least one team, and none has work after its last barrier. */
  ghost predicate Closed<I(!new), L>(k: Kernel<I, L>) {
    k.teams > 0 && forall t, i :: !k.active(t, k.phases, i)
  }

  ghost predicate LeagueOnly<I(!new), L>(k: Kernel<I, L>) {
    forall t, p, i :: k.active(t, p, i) ==> 0 <= t < k.teams
  }

  /** Any two complete schedules of a race-free kernel end in the same memory, so each
      ends as the one that runs the items one after another. */
  lemma SchedulesAgree<I(!new), L(!new)>(k: Kernel<I, L>, mem: Memory<L>, e: seq<Event<I>>, s: State<I, L>,
                                         e': seq<Event<I>>, s': State<I, L>, l: L)
    requires RaceFree(k) && Closed(k) && LeagueOnly(k)
    requires Reaches(k, mem, e, s) && Finished(k, s)
    requires Reaches(k, mem, e', s') && Finished(k, s')
    ensures Get(s.mem, l) == Get(s'.mem, l)
  {
    ReachableInv(k, mem, e, s);
    ReachableInv(k, mem, e', s');
    ReachableSnapshots(k, mem, e, s);
    ReachableSnapshots(k, mem, e', s');
    var t := 0;
    if u, p, i :| k.active(u, p, i) && Stores(k.prog(u, p, i), l) {
      StoresTouches(k.prog(u, p, i), l);
      OwnedIsNotForeign(k, u, p, i, l);
      t := u;
    } else {
      assert NotForeign(k, t, l);
    }
    SnapshotUnique(k, mem, t, k.phases, s.teams[t].start, s'.teams[t].start);
    assert Quiet(k, t, k.phases, l);
  }
}
