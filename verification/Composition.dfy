/** The algebra behind composition: what a composite's capacity means and does not depend on. */
module CompositionLaws {
  import opened Prelude
  import opened Resource

  // Addition of fragments is a commutative monoid, although integer dimensions saturate.

  lemma AddCommutes(a: ResourceFragment, b: ResourceFragment)
    ensures Add(a, b) == Add(b, a)
  {
  }

  lemma AddAssociates(a: ResourceFragment, b: ResourceFragment, c: ResourceFragment)
    ensures Add(Add(a, b), c) == Add(a, Add(b, c))
  {
  }

  lemma AddZero(a: ResourceFragment)
    ensures Add(a, ZERO) == a == Add(ZERO, a)
  {
  }

  lemma {:induction false} CapacityOfConcatenation(a: seq<Allocation>, b: seq<Allocation>)
    ensures Capacity(a + b) == Add(Capacity(a), Capacity(b))
  {
    if b == [] {
      assert a + b == a;
      AddZero(Capacity(a));
    } else {
      var last := |b| - 1;
      assert (a + b)[..|a| + last] == a + b[..last];
      CapacityOfConcatenation(a, b[..last]);
      AddAssociates(Capacity(a), Capacity(b[..last]), b[last].resources);
    }
  }

  lemma CapacityOfOne(a: Allocation)
    ensures Capacity([a]) == a.resources
  {
    assert [a][..0] == [];
    AddZero(a.resources);
  }

  lemma CapacityWithout(s: seq<Allocation>, k: nat)
    requires k < |s|
    ensures Capacity(s) == Add(Capacity(Without(s, k)), s[k].resources)
  {
    CapacityOfParts(s[..k], s[k], s[k + 1..]);
    SplitAt(s, k);
  }

  lemma SplitAt<T>(s: seq<T>, k: nat)
    requires k < |s|
    ensures s == s[..k] + ([s[k]] + s[k + 1..]) && Without(s, k) == s[..k] + s[k + 1..]
  {
  }

  lemma CapacityOfParts(front: seq<Allocation>, a: Allocation, back: seq<Allocation>)
    ensures Capacity(front + ([a] + back)) == Add(Capacity(front + back), a.resources)
  {
    CapacityOfConcatenation(front, [a] + back);
    CapacityOfConcatenation([a], back);
    CapacityOfConcatenation(front, back);
    CapacityOfOne(a);
    AddLast(Capacity(front), a.resources, Capacity(back));
  }

  lemma AddLast(a: ResourceFragment, b: ResourceFragment, c: ResourceFragment)
    ensures Add(a, Add(b, c)) == Add(Add(a, c), b)
  {
    AddCommutes(b, c);
    AddAssociates(a, c, b);
  }

  lemma {:induction false} CapacityIgnoresOrder(a: seq<Allocation>, b: seq<Allocation>)
    requires multiset(a) == multiset(b)
    ensures Capacity(a) == Capacity(b)
    decreases |a|
  {
    if a == [] {
      ReorderingOfNothing(b);
    } else {
      var k := LastOfReordering(a, b);
      CapacityIgnoresOrder(a[..|a| - 1], Without(b, k));
      CapacityWithout(b, k);
    }
  }

  /** The largest amount a dimension can hold, for the four integer dimensions. */
  function Ceiling(d: Dimension): real
    requires !d.Cpu?
  {
    if d.Gpu? then U32_MAX as real else U64_MAX as real
  }

  function Clamped(d: Dimension, amount: real): real {
    if d.Cpu? || amount <= Ceiling(d) then amount else Ceiling(d)
  }

  /** The exact, unbounded sum over allocations in one dimension. */
  function Sum(allocations: seq<Allocation>, d: Dimension): (r: real) {
    if allocations == [] then 0.0
    else Amount(allocations[0].resources, d) + Sum(allocations[1..], d)
  }

  lemma {:induction false} SumOfConcatenation(a: seq<Allocation>, b: seq<Allocation>, d: Dimension)
    ensures Sum(a + b, d) == Sum(a, d) + Sum(b, d)
  {
    if a == [] {
      assert a + b == b;
    } else {
      assert (a + b)[1..] == a[1..] + b;
      SumOfConcatenation(a[1..], b, d);
    }
  }

  lemma SumWithout(s: seq<Allocation>, k: nat, d: Dimension)
    requires k < |s|
    ensures Sum(s, d) == Sum(Without(s, k), d) + Amount(s[k].resources, d)
  {
    assert s == s[..k] + ([s[k]] + s[k + 1..]);
    SumOfConcatenation(s[..k], [s[k]] + s[k + 1..], d);
    SumOfConcatenation([s[k]], s[k + 1..], d);
    SumOfConcatenation(s[..k], s[k + 1..], d);
  }

  lemma {:induction false} SumIsNonNegative(s: seq<Allocation>, d: Dimension)
    requires d.Cpu? ==> forall a <- s :: a.resources.cpu >= 0.0
    ensures Sum(s, d) >= 0.0
  {
    if s != [] {
      SumIsNonNegative(s[1..], d);
    }
  }

  lemma AddClamps(a: ResourceFragment, b: ResourceFragment, d: Dimension)
    ensures Amount(Add(a, b), d) == Clamped(d, Amount(a, d) + Amount(b, d))
  {
  }

  /** Each integer dimension is the exact sum cut off at the type's maximum; CPU is the exact sum. */
  lemma {:induction false} CapacityIsClampedSum(s: seq<Allocation>, d: Dimension)
    ensures Amount(Capacity(s), d) == Clamped(d, Sum(s, d))
  {
    if s != [] {
      var last := |s| - 1;
      CapacityIsClampedSum(s[..last], d);
      AddClamps(Capacity(s[..last]), s[last].resources, d);
      assert s == s[..last] + [s[last]];
      SumOfConcatenation(s[..last], [s[last]], d);
      assert Sum([s[last]], d) == Amount(s[last].resources, d);
    }
  }

  /** The composite's lifetime is the shortest bounded one, and unbounded only if all are. */
  lemma {:induction false} CapacityLifetimeIsShortest(s: seq<Allocation>)
    ensures Capacity(s).lifetime.None? <==> forall a <- s :: a.resources.lifetime.None?
    ensures Capacity(s).lifetime.Some? ==>
              && (exists a <- s :: a.resources.lifetime == Capacity(s).lifetime)
              && (forall a <- s :: a.resources.lifetime.Some? ==>
                    Capacity(s).lifetime.value <= a.resources.lifetime.value)
  {
    if s != [] {
      var last := |s| - 1;
      CapacityLifetimeIsShortest(s[..last]);
      assert s == s[..last] + [s[last]];
      assert forall a :: a in s <==> a in s[..last] || a == s[last];
    }
  }

  predicate DistinctParticipants(s: seq<Allocation>) {
    DistinctBy(s, (a: Allocation) => a.participantId)
  }

  predicate Composable(s: seq<Allocation>) {
    && s != []
    && DistinctParticipants(s)
    && (forall a <- s :: a.participantId != [] && ValidRequirement(a.resources))
  }

  lemma {:induction false} NoFaultIff(s: seq<Allocation>, n: nat)
    requires n <= |s|
    ensures FirstFault(s, n).None? <==> forall i :: 0 <= i < n ==> FaultAt(s, i).None?
  {
    if n > 0 {
      NoFaultIff(s, n - 1);
    }
  }

  /** Composition accepts exactly the non-empty lists of sound allocations by distinct participants. */
  lemma CompositionSucceedsIff(s: seq<Allocation>)
    ensures Composition(s).Ok? <==> Composable(s)
  {
    NoFaultIff(s, |s|);
    if Composition(s).Ok? {
      forall i, j | 0 <= i < j < |s| ensures s[i].participantId != s[j].participantId {
        assert FaultAt(s, j).None?;
      }
      forall a | a in s ensures a.participantId != [] && ValidRequirement(a.resources) {
        var i :| 0 <= i < |s| && s[i] == a;
        assert FaultAt(s, i).None?;
      }
    } else if s != [] {
      var i :| 0 <= i < |s| && FaultAt(s, i).Some?;
      assert s[i] in s;
    }
  }

  /**
   A composite validates exactly when its stated capacity is the one its allocations compose
   to, and then so does every reordering of it.
   */
  lemma ValidCompositeIgnoresOrder(c: CompositeResource, reordered: seq<Allocation>)
    requires multiset(c.allocations) == multiset(reordered)
    ensures ValidateComposite(c).None? <==> Composable(c.allocations) && c.capacity == Capacity(c.allocations)
    ensures ValidateComposite(c).None? ==>
              && Composition(reordered) == Ok(CompositeResource(c.capacity, reordered))
              && ValidateComposite(CompositeResource(c.capacity, reordered)).None?
  {
    CompositionSucceedsIff(c.allocations);
    if Composition(c.allocations).Ok? {
      DistinctIgnoresOrder(c.allocations, reordered, (a: Allocation) => a.participantId);
      assert forall a :: a in reordered <==> a in multiset(c.allocations);
      assert reordered != [] by {
        assert c.allocations[0] in multiset(reordered);
      }
      CompositionSucceedsIff(reordered);
      CapacityIgnoresOrder(c.allocations, reordered);
    }
  }

  // What is reported

  /** A fragment covers another in every dimension and, where both are bounded, in time. */
  lemma SatisfiesIff(f: ResourceFragment, requirement: ResourceFragment)
    ensures Satisfies(f, requirement) <==>
              && (forall d: Dimension :: Amount(f, d) >= Amount(requirement, d))
              && (f.lifetime.None? || requirement.lifetime.None? || f.lifetime.value >= requirement.lifetime.value)
  {
    if forall d: Dimension :: Amount(f, d) >= Amount(requirement, d) {
      assert Amount(f, Cpu) >= Amount(requirement, Cpu) && Amount(f, Memory) >= Amount(requirement, Memory);
      assert Amount(f, Storage) >= Amount(requirement, Storage) && Amount(f, Network) >= Amount(requirement, Network);
      assert Amount(f, Gpu) >= Amount(requirement, Gpu);
    }
  }

  /** A requirement is refused for a negative CPU amount, and else for asking for nothing at all. */
  lemma RequirementOutcome(f: ResourceFragment)
    ensures ValidateRequirement(f)
            == if Amount(f, Cpu) < 0.0 then Some(InvalidCpu)
               else if forall d: Dimension :: Amount(f, d) == 0.0 then Some(EmptyRequirement)
               else None
  {
    if forall d: Dimension :: Amount(f, d) == 0.0 {
      assert Amount(f, Cpu) == 0.0 && Amount(f, Memory) == 0.0 && Amount(f, Storage) == 0.0;
      assert Amount(f, Network) == 0.0 && Amount(f, Gpu) == 0.0;
    }
  }

  lemma {:induction false} FaultIsFirst(s: seq<Allocation>, n: nat) returns (k: nat)
    requires n <= |s| && FirstFault(s, n).Some?
    ensures k < n && FaultAt(s, k) == FirstFault(s, n)
    ensures forall i :: 0 <= i < k ==> FaultAt(s, i).None?
  {
    if FirstFault(s, n - 1).Some? {
      k := FaultIsFirst(s, n - 1);
    } else {
      k := n - 1;
      NoFaultIff(s, n - 1);
    }
  }

  /** The allocations before k can be composed, and those up to and including k cannot. */
  predicate Spoils(s: seq<Allocation>, k: nat)
    requires k < |s|
  {
    (k == 0 || Composable(s[..k])) && !Composable(s[..k + 1])
  }

  predicate HeldBefore(s: seq<Allocation>, k: nat)
    requires k < |s|
  {
    exists j :: 0 <= j < k && s[j].participantId == s[k].participantId
  }

  /** Composing fails on nothing at all, or at the first allocation that cannot join those before it. */
  lemma CompositionOutcome(s: seq<Allocation>)
    ensures s == [] ==> Composition(s) == Err(EmptyComposite)
    ensures s != [] && !Composable(s) ==>
              exists k: nat :: k < |s| && Spoils(s, k)
                && Composition(s) == Err(if s[k].participantId != [] && HeldBefore(s, k) then DuplicateParticipant
                                         else InvalidAllocation)
    ensures Composable(s) ==> Composition(s) == Ok(CompositeResource(Capacity(s), s))
  {
    CompositionSucceedsIff(s);
    if s != [] && !Composable(s) {
      var k := FirstSpoiler(s);
    }
  }

  lemma FaultKind(s: seq<Allocation>, k: nat)
    requires k < |s| && FaultAt(s, k).Some?
    ensures FaultAt(s, k) == Some(if s[k].participantId != [] && HeldBefore(s, k) then DuplicateParticipant
                                  else InvalidAllocation)
  {
  }

  lemma FirstSpoiler(s: seq<Allocation>) returns (k: nat)
    requires s != [] && !Composable(s)
    ensures k < |s| && Spoils(s, k)
    ensures Composition(s) == Err(if s[k].participantId != [] && HeldBefore(s, k) then DuplicateParticipant
                                  else InvalidAllocation)
  {
    CompositionSucceedsIff(s);
    k := FaultIsFirst(s, |s|);
    FaultKind(s, k);
    FaultsOfPrefix(s, k);
    FaultsOfPrefix(s, k + 1);
  }

  lemma FaultsOfPrefix(s: seq<Allocation>, n: nat)
    requires 0 <= n <= |s|
    ensures n > 0 ==> (Composable(s[..n]) <==> forall i :: 0 <= i < n ==> FaultAt(s, i).None?)
  {
    var prefix := s[..n];
    CompositionSucceedsIff(prefix);
    NoFaultIff(prefix, n);
    forall i | 0 <= i < n ensures FaultAt(prefix, i) == FaultAt(s, i) {
      FaultOfPrefix(s, n, i);
    }
  }

  lemma FaultOfPrefix(s: seq<Allocation>, n: nat, i: nat)
    requires i < n <= |s|
    ensures FaultAt(s[..n], i) == FaultAt(s, i)
  {
    assert forall j :: 0 <= j <= i ==> s[..n][j] == s[j];
    if HeldBefore(s, i) {
      var j :| 0 <= j < i && s[j].participantId == s[i].participantId;
      assert s[..n][j].participantId == s[..n][i].participantId;
    }
  }
}
