/**
 Every partial run of a race-free kernel with finitely many work items can be completed,
 so the statements about complete schedules are about something.
 */
module ScheduleCompletion {
  import opened Matrices
  import opened BarrierMachine
  import opened GemmSchedules

  /** items lists at least the work items of every team and phase. */
  ghost predicate Lists<I(!new), L>(k: Kernel<I, L>, items: (int, int) -> set<I>) {
    forall t, p, i :: k.active(t, p, i) ==> i in items(t, p)
  }

  lemma OneMore<I(!new), L(!new)>(k: Kernel<I, L>, mem: Memory<L>, events: seq<Event<I>>, s: State<I, L>, e: Event<I>)
    requires Reaches(k, mem, events, s) && Enabled(k, s, e)
    ensures Reaches(k, mem, events + [e], Next(k, s, e))
  {
    hide Next, Enabled;
    assert (events + [e])[..|events|] == events;
  }

  /** Only team t moved, and not past a barrier. */
  ghost predicate OnlyTeam<I(!new), L>(s: State<I, L>, s': State<I, L>, t: nat) {
    && t < |s.teams| == |s'.teams| && s'.teams[t].phase == s.teams[t].phase
    && forall u :: 0 <= u < |s.teams| && u != t ==> s'.teams[u] == s.teams[u]
  }

  ghost predicate ItemDone<I(!new), L>(k: Kernel<I, L>, s: State<I, L>, t: nat, i: I)
    requires t < |s.teams|
  {
    ThreadOf(s.teams[t], i).pc == |k.prog(t, s.teams[t].phase, i)|
  }

  /** Runs one work item to its end. */
  lemma {:induction false} RunItem<I(!new), L(!new)>(k: Kernel<I, L>, mem: Memory<L>, events: seq<Event<I>>,
                                                     s: State<I, L>, t: nat, i: I)
    returns (events': seq<Event<I>>, s': State<I, L>)
    requires Reaches(k, mem, events, s) && t < |s.teams| && s.teams[t].phase < k.phases
    requires k.active(t, s.teams[t].phase, i) && ThreadOf(s.teams[t], i).pc <= |k.prog(t, s.teams[t].phase, i)|
    ensures events <= events' && Reaches(k, mem, events', s') && OnlyTeam(s, s', t) && ItemDone(k, s', t, i)
    ensures forall j :: j != i ==> ThreadOf(s'.teams[t], j) == ThreadOf(s.teams[t], j)
    decreases |k.prog(t, s.teams[t].phase, i)| - ThreadOf(s.teams[t], i).pc
  {
    hide Reaches;
    if ItemDone(k, s, t, i) {
      events', s' := events, s;
    } else {
      OneMore(k, mem, events, s, Access(t, i));
      events', s' := RunItem(k, mem, events + [Access(t, i)], Next(k, s, Access(t, i)), t, i);
    }
  }

  /** Runs the first n accesses of an item that has not started, without interruption. */
  lemma {:induction false} RunAlone<I(!new), L(!new)>(k: Kernel<I, L>, mem: Memory<L>, events: seq<Event<I>>,
                                                      s: State<I, L>, t: nat, i: I, n: nat)
    returns (events': seq<Event<I>>, s': State<I, L>)
    requires Reaches(k, mem, events, s) && t < |s.teams| && s.teams[t].phase < k.phases
    requires k.active(t, s.teams[t].phase, i) && i !in s.teams[t].threads && n <= |k.prog(t, s.teams[t].phase, i)|
    ensures Reaches(k, mem, events', s') && OnlyTeam(s, s', t)
    ensures s'.mem == Solo(k.prog(t, s.teams[t].phase, i), s.mem, n).mem
    ensures ThreadOf(s'.teams[t], i) == Thread(n, Solo(k.prog(t, s.teams[t].phase, i), s.mem, n).log)
    ensures forall j :: j != i ==> ThreadOf(s'.teams[t], j) == ThreadOf(s.teams[t], j)
    ensures s'.teams[t].threads.Keys <= s.teams[t].threads.Keys + {i}
  {
    hide Reaches;
    if n == 0 {
      events', s' := events, s;
    } else {
      var e1, s1 := RunAlone(k, mem, events, s, t, i, n - 1);
      OneMore(k, mem, e1, s1, Access(t, i));
      events', s' := e1 + [Access(t, i)], Next(k, s1, Access(t, i));
    }
  }

  /** What item i of the first phase leaves in memory, run alone from m. */
  ghost function MemoryAfter<I, L>(k: Kernel<I, L>, i: I, m: Memory<L>): Memory<L> {
    Solo(k.prog(0, 0, i), m, |k.prog(0, 0, i)|).mem
  }

  /** A kernel of two items, run one after the other. */
  lemma RunBoth<I(!new), L(!new)>(k: Kernel<I, L>, mem: Memory<L>, a: I, b: I)
    returns (events: seq<Event<I>>, s: State<I, L>)
    requires k.teams == k.phases == 1 && a != b
    requires forall i :: k.active(0, 0, i) <==> i == a || i == b
    ensures Reaches(k, mem, events, s) && Finished(k, s)
    ensures s.mem == MemoryAfter(k, b, MemoryAfter(k, a, mem))
  {
    assert Reaches(k, mem, [], Initial(k, mem));
    hide Reaches;
    events, s := RunAlone(k, mem, [], Initial(k, mem), 0, a, |k.prog(0, 0, a)|);
    events, s := RunAlone(k, mem, events, s, 0, b, |k.prog(0, 0, b)|);
    assert Done(k, 0, s.teams[0]);
    OneMore(k, mem, events, s, Barrier(0));
    events, s := events + [Barrier(0)], Next(k, s, Barrier(0));
  }

  /** Runs every work item of a phase to its end. */
  lemma {:induction false} RunItems<I(!new), L(!new)>(k: Kernel<I, L>, mem: Memory<L>, events: seq<Event<I>>,
                                                      s: State<I, L>, t: nat, todo: set<I>)
    returns (events': seq<Event<I>>, s': State<I, L>)
    requires Reaches(k, mem, events, s) && t < |s.teams| && s.teams[t].phase < k.phases
    requires forall i :: k.active(t, s.teams[t].phase, i) ==>
               ThreadOf(s.teams[t], i).pc <= |k.prog(t, s.teams[t].phase, i)|
    requires forall i :: k.active(t, s.teams[t].phase, i) && i !in todo ==> ItemDone(k, s, t, i)
    ensures events <= events' && Reaches(k, mem, events', s') && OnlyTeam(s, s', t) && Done(k, t, s'.teams[t])
    decreases todo
  {
    hide Reaches;
    if todo == {} {
      events', s' := events, s;
    } else {
      var i :| i in todo;
      if k.active(t, s.teams[t].phase, i) {
        var events1, s1 := RunItem(k, mem, events, s, t, i);
        events', s' := RunItems(k, mem, events1, s1, t, todo - {i});
      } else {
        events', s' := RunItems(k, mem, events, s, t, todo - {i});
      }
    }
  }

  /** Takes one team through its remaining phases. */
  lemma {:induction false} RunTeam<I(!new), L(!new)>(k: Kernel<I, L>, mem: Memory<L>, items: (int, int) -> set<I>,
                                                      events: seq<Event<I>>, s: State<I, L>, t: nat)
    returns (events': seq<Event<I>>, s': State<I, L>)
    requires RaceFree(k) && Lists(k, items) && Reaches(k, mem, events, s) && t < |s.teams|
             && s.teams[t].phase <= k.phases
    ensures events <= events' && Reaches(k, mem, events', s') && |s'.teams| == |s.teams|
            && s'.teams[t].phase == k.phases
    ensures forall u :: 0 <= u < |s.teams| && u != t ==> s'.teams[u] == s.teams[u]
    decreases k.phases - s.teams[t].phase
  {
    if s.teams[t].phase == k.phases {
      events', s' := events, s;
    } else {
      ReachableInv(k, mem, events, s);
      PcsInRange(k, s, t);
      hide RaceFree, Reaches, Inv;
      var events1, s1 := RunItems(k, mem, events, s, t, items(t, s.teams[t].phase));
      OneMore(k, mem, events1, s1, Barrier(t));
      var s2 := Next(k, s1, Barrier(t));
      hide Done;
      events', s' := RunTeam(k, mem, items, events1 + [Barrier(t)], s2, t);
    }
  }

  lemma PcsInRange<I(!new), L(!new)>(k: Kernel<I, L>, s: State<I, L>, t: nat)
    requires Inv(k, s) && t < |s.teams|
    ensures forall i :: k.active(t, s.teams[t].phase, i) ==>
              ThreadOf(s.teams[t], i).pc <= |k.prog(t, s.teams[t].phase, i)|
  {
  }

  lemma {:induction false} RunTeams<I(!new), L(!new)>(k: Kernel<I, L>, mem: Memory<L>, items: (int, int) -> set<I>,
                                                       events: seq<Event<I>>, s: State<I, L>, t: nat)
    returns (events': seq<Event<I>>, s': State<I, L>)
    requires RaceFree(k) && Lists(k, items) && Reaches(k, mem, events, s) && t <= |s.teams|
    requires forall u :: 0 <= u < |s.teams| ==> s.teams[u].phase <= k.phases && (u < t ==> s.teams[u].phase == k.phases)
    ensures events <= events' && Reaches(k, mem, events', s') && Finished(k, s')
    decreases |s.teams| - t
  {
    hide RaceFree, Reaches;
    if t == |s.teams| {
      events', s' := events, s;
    } else {
      var events1, s1 := RunTeam(k, mem, items, events, s, t);
      events', s' := RunTeams(k, mem, items, events1, s1, t + 1);
    }
  }

  /** From every reachable state some continuation completes the run. */
  lemma RunsComplete<I(!new), L(!new)>(k: Kernel<I, L>, mem: Memory<L>, items: (int, int) -> set<I>,
                                       events: seq<Event<I>>, s: State<I, L>)
    returns (events': seq<Event<I>>, s': State<I, L>)
    requires RaceFree(k) && Lists(k, items) && Reaches(k, mem, events, s)
    ensures events <= events' && Reaches(k, mem, events', s') && Finished(k, s')
  {
    ReachableInv(k, mem, events, s);
    hide RaceFree, Reaches, TeamView;
    events', s' := RunTeams(k, mem, items, events, s, 0);
  }

  // ------------------------------------------------------------------
  // The tiled GEMM
  // ------------------------------------------------------------------

  /** All items whose indices lie below a common bound. */
  ghost function ItemsBelow(n: nat): set<Item> {
    (set c | c in Pairs(n, n) :: ClearC(c.0, c.1)) + (set c | c in Pairs(n, n) :: CopyA(c.0, c.1))
    + (set c | c in Pairs(n, n) :: CopyB(c.0, c.1)) + (set c | c in Pairs(n, n) :: Dot(c.0, c.1))
    + (set c | c in Pairs(n, n) :: Write(c.0, c.1))
  }

  lemma ItemsBelowMembers(n: nat, i: int, j: int)
    requires 0 <= i < n && 0 <= j < n
    ensures ClearC(i, j) in ItemsBelow(n) && CopyA(i, j) in ItemsBelow(n) && CopyB(i, j) in ItemsBelow(n)
    ensures Dot(i, j) in ItemsBelow(n) && Write(i, j) in ItemsBelow(n)
  {
    assert (i, j) in Pairs(n, n);
  }

  ghost function Bound(pb: ValidProblem): nat { pb.blockA0 + pb.blockA1 + pb.blockB1 }

  lemma ClipBelowBlock(off: nat, block: nat, extent: nat)
    requires block > 0
    ensures Clip(off, block, extent) <= block
  {
  }

  lemma GemmItemsListed(pb: ValidProblem)
    ensures Lists(GemmKernel(pb), (t, p) => ItemsBelow(Bound(pb)))
  {
    hide ItemsBelow, Prog, Clip, OffI, OffJ;
    forall t, p, item | Active(pb, t, p, item)
      ensures item in ItemsBelow(Bound(pb))
    {
      match item
      case ClearC(i, j) => ItemsBelowMembers(Bound(pb), i, j);
      case CopyA(i, j) => ItemsBelowMembers(Bound(pb), i, j);
      case CopyB(i, j) => ItemsBelowMembers(Bound(pb), i, j);
      case Dot(i, b) => ItemsBelowMembers(Bound(pb), i, b);
      case Write(i, j) =>
        ClipBelowBlock(OffI(pb, t), pb.blockA0, M(pb));
        ClipBelowBlock(OffJ(pb, t), pb.blockB1, N(pb));
        ItemsBelowMembers(Bound(pb), i, j);
    }
  }

  /** Every partial schedule of the tiled GEMM extends to a complete one. */
  lemma GemmRunsComplete(pb: ValidProblem, mem: Memory<Address>, events: seq<Event<Item>>, s: State<Item, Address>)
    returns (events': seq<Event<Item>>, s': State<Item, Address>)
    requires Reaches(GemmKernel(pb), mem, events, s)
    ensures events <= events' && Reaches(GemmKernel(pb), mem, events', s') && Finished(GemmKernel(pb), s')
  {
    hide GemmKernel, Reaches, RaceFree, Lists, Finished;
    GemmIsRaceFree(pb);
    GemmItemsListed(pb);
    events', s' := RunsComplete(GemmKernel(pb), mem, (t, p) => ItemsBelow(Bound(pb)), events, s);
  }
}
