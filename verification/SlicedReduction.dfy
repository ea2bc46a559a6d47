/**
 Dot products split over several teams. Team rank works on slice rank % teamsPerDot of
 dot product rank / teamsPerDot; the last slice takes the remainder of the vector.
 Each team reduces its slice in any tree order and adds the partial result atomically.
 */
module SlicedReduction {
  import opened Scalars
  import opened Sums
  import opened Matrices
  import opened Options
  import opened Tiling

  /** Teams per dot product; None is the division by zero for no reductions at all. */
  function WorkDistribution(length: nat, numReductions: nat): Option<nat> {
    var appx := length * numReductions / 4096;
    var clamped := if appx < 1 then 1 else if appx > 1024 then 1024 else appx;
    if numReductions >= clamped then Some(1)
    else if numReductions == 0 then None
    else Some(clamped / numReductions)
  }

  /** The work distribution is defined exactly when there is something to reduce;
      then every dot product has at least one team, and either there is one team per
      dot product or the league stays within 1024 teams. */
  lemma WorkDistributionBounds(length: nat, numReductions: nat)
    ensures WorkDistribution(length, numReductions).Some? <==> numReductions > 0
    ensures numReductions > 0 ==>
              var teams := WorkDistribution(length, numReductions).value;
              teams >= 1 && (teams == 1 || teams * numReductions <= 1024)
  {
    if numReductions > 0 {
      var appx := length * numReductions / 4096;
      var clamped := if appx < 1 then 1 else if appx > 1024 then 1024 else appx;
      DivBounds(clamped, numReductions, clamped / numReductions);
      DivBounds(clamped, numReductions, 0);
    }
  }

  /** There are as many teams per dot product as keep the league within 1024 and give each team 4096
      products, and at least one. */
  lemma WorkDistributionExact(length: nat, numReductions: nat, n: nat)
    requires numReductions > 0
    ensures WorkDistribution(length, numReductions) == Some(n) <==>
              n >= 1 && (n == 1 || (n * numReductions <= 1024 && n * 4096 <= length))
              && !((n + 1) * numReductions <= 1024 && (n + 1) * 4096 <= length)
  {
    TeamsExact(length, numReductions, WorkDistribution(length, numReductions).value);
    var w := WorkDistribution(length, numReductions).value;
    hide WorkDistribution;
    if n < w {
      MulMonotone(n + 1, w, numReductions);
    } else if w < n {
      MulMonotone(w + 1, n, numReductions);
    }
  }

  lemma TeamsExact(length: nat, numReductions: nat, w: nat)
    requires numReductions > 0 && WorkDistribution(length, numReductions) == Some(w)
    ensures w >= 1 && (w == 1 || (w * numReductions <= 1024 && w * 4096 <= length))
    ensures !((w + 1) * numReductions <= 1024 && (w + 1) * 4096 <= length)
  {
    var appx := length * numReductions / 4096;
    DivBounds(length * numReductions, 4096, appx);
    var clamped := if appx < 1 then 1 else if appx > 1024 then 1024 else appx;
    if numReductions >= clamped {
      Doubled(length, numReductions, appx);
    } else {
      var q := clamped / numReductions;
      DivBounds(clamped, numReductions, q);
      LengthOfTeams(length, numReductions, q);
      LengthOfTeams(length, numReductions, q + 1);
    }
  }

  lemma LengthOfTeams(length: nat, numReductions: nat, q: nat)
    requires numReductions > 0
    ensures q * numReductions <= length * numReductions / 4096 <==> q * 4096 <= length
  {
    var appx := length * numReductions / 4096;
    DivBounds(length * numReductions, 4096, appx);
    if q * 4096 <= length {
      MulMonotone(q * 4096, length, numReductions);
    } else {
      MulMonotone(length + 1, q * 4096, numReductions);
    }
  }

  lemma Doubled(length: nat, numReductions: nat, appx: nat)
    requires numReductions > 0 && appx == length * numReductions / 4096
    requires numReductions >= appx || numReductions >= 1024
    ensures !(2 * numReductions <= 1024 && 2 * 4096 <= length)
  {
    LengthOfTeams(length, numReductions, 2);
  }

  function SliceBegin(l: nat, n: nat, teams: nat): nat
    requires teams > 0
  {
    l * (n / teams)
  }

  function SliceEnd(l: nat, n: nat, teams: nat): nat
    requires teams > 0
  {
    if l == teams - 1 then n else (l + 1) * (n / teams)
  }

  lemma SliceBounds(l: nat, n: nat, teams: nat)
    requires l < teams
    ensures SliceBegin(l, n, teams) <= SliceEnd(l, n, teams) <= n
    ensures l + 1 < teams ==> SliceEnd(l, n, teams) == SliceBegin(l + 1, n, teams)
  {
    DivBounds(n, teams, n / teams);
    MulMonotone(l, l + 1, n / teams);
    MulMonotone(l + 1, teams, n / teams);
  }

  /** The partial result of slice l. */
  ghost function Slice(f: int -> Complex, n: nat, teams: nat): int -> Complex
    requires teams > 0
  {
    (l: int) =>
      if 0 <= l < teams && SliceBegin(l, n, teams) <= SliceEnd(l, n, teams)
      then Sum(f, SliceBegin(l, n, teams), SliceEnd(l, n, teams)) else Zero
  }

  lemma {:induction false} SlicePrefix(f: int -> Complex, n: nat, teams: nat, k: nat)
    requires k < teams
    ensures Sum(Slice(f, n, teams), 0, k) == Sum(f, 0, SliceBegin(k, n, teams))
  {
    hide Add;
    if k > 0 {
      SlicePrefix(f, n, teams, k - 1);
      SliceBounds(k - 1, n, teams);
      SumSplit(f, 0, SliceBegin(k - 1, n, teams), SliceBegin(k, n, teams));
    }
  }

  /** The slices, however uneven, partition the whole dot product. */
  lemma SlicesPartition(f: int -> Complex, n: nat, teams: nat)
    requires teams > 0
    ensures Sum(Slice(f, n, teams), 0, teams) == Sum(f, 0, n)
  {
    hide Add;
    SlicePrefix(f, n, teams, teams - 1);
    SliceBounds(teams - 1, n, teams);
    SumSplit(f, 0, SliceBegin(teams - 1, n, teams), n);
  }

  // ------------------------------------------------------------------
  // Pending teams
  // ------------------------------------------------------------------

  /** The rank of the team that works on slice l of dot product d. */
  function TeamRank(d: int, l: int, teams: int): int {
    d * teams + l
  }

  lemma TeamRankSplit(d: nat, l: nat, teams: nat, rank: nat)
    requires l < teams
    ensures TeamRank(d, l, teams) == rank <==> d == rank / teams && l == rank % teams
  {
    RankSplit(d, l, teams, rank);
  }

  /** Slice l of dot product d if its team has yet to contribute, else nothing. */
  ghost function PendingTerm(f: int -> Complex, n: nat, teams: nat, todo: set<int>, d: int): int -> Complex
    requires teams > 0
  {
    l => if TeamRank(d, l, teams) in todo then Slice(f, n, teams)(l) else Zero
  }

  /** What the teams in todo still have to add to dot product d. */
  ghost function Pending(f: int -> Complex, n: nat, teams: nat, todo: set<int>, d: int): Complex
    requires teams > 0
  {
    Sum(PendingTerm(f, n, teams, todo, d), 0, teams)
  }

  lemma AllPending(f: int -> Complex, n: nat, teams: nat, dots: nat, d: nat)
    requires teams > 0 && d < dots
    ensures Pending(f, n, teams, Ranks(dots * teams), d) == Sum(f, 0, n)
  {
    forall l | 0 <= l < teams
      ensures PendingTerm(f, n, teams, Ranks(dots * teams), d)(l) == Slice(f, n, teams)(l)
    {
      TileRankBound(d, l, dots, teams);
    }
    SumCongruence(PendingTerm(f, n, teams, Ranks(dots * teams), d), Slice(f, n, teams), 0, teams);
    SlicesPartition(f, n, teams);
  }

  lemma NonePending(f: int -> Complex, n: nat, teams: nat, d: int)
    requires teams > 0
    ensures Pending(f, n, teams, {}, d) == Zero
  {
    SumOfZeros(PendingTerm(f, n, teams, {}, d), 0, teams);
  }

  /** One team's contribution leaves the pending part of its own dot product by
      exactly its slice, and that of every other dot product alone. */
  lemma PendingStep(f: int -> Complex, n: nat, teams: nat, todo: set<int>, rank: nat, d: nat)
    requires teams > 0 && rank in todo
    ensures Pending(f, n, teams, todo, d)
            == if d == rank / teams
               then Add(Slice(f, n, teams)(rank % teams), Pending(f, n, teams, todo - {rank}, d))
               else Pending(f, n, teams, todo - {rank}, d)
  {
    hide Slice, Add, TeamRank;
    var before, after := PendingTerm(f, n, teams, todo, d), PendingTerm(f, n, teams, todo - {rank}, d);
    forall l | 0 <= l < teams
      ensures TeamRank(d, l, teams) == rank <==> d == rank / teams && l == rank % teams
    {
      TeamRankSplit(d, l, teams, rank);
    }
    if d == rank / teams {
      SumRemoveTerm(before, after, 0, teams, rank % teams);
    } else {
      SumCongruence(before, after, 0, teams);
    }
  }

  /** A tree over the slice of a team computes its partial result from rows of the vector. */
  lemma SliceReduction(t: Tree, l: nat, f: int -> Complex, n: nat, teams: nat)
    requires l < teams && Covers(t, SliceBegin(l, n, teams), SliceEnd(l, n, teams))
    ensures forall k :: k in Indices(t) ==> 0 <= k < n
    ensures Reduce(f, t) == Slice(f, n, teams)(l)
  {
    SliceBounds(l, n, teams);
    RangeMembers(SliceBegin(l, n, teams), SliceEnd(l, n, teams));
    ReduceIsSum(f, t, SliceBegin(l, n, teams), SliceEnd(l, n, teams));
  }

  lemma RankInLeague(rank: nat, dots: nat, teams: nat)
    requires rank < dots * teams
    ensures teams > 0 && rank / teams < dots
  {
    if teams > 0 && rank / teams >= dots {
      DivBounds(rank, teams, rank / teams);
      MulMonotone(dots, rank / teams, teams);
      assert false;
    }
  }
}
