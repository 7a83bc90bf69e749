/** Pod requests and node capacity (cval/k8s/discovery.py): the one-pass effective request, its meaning as a peak over the
    pod's life, and what rounding up costs. Quantities are in the unit that the parser rounds to. */
module PodRequest {
  import opened Wrappers

  datatype RestartPolicy = Once | Always | Unknown

  /** An init container with its exact request. */
  datatype InitContainer = InitContainer(request: real, policy: RestartPolicy)

  datatype Pod = Pod(apps: seq<real>, inits: seq<InitContainer>, overhead: real)

  /** to_integral_value with ROUND_CEILING. */
  function RoundUp(q: real): int {
    -((-q).Floor)
  }

  lemma RoundUpBounds(q: real)
    ensures q <= RoundUp(q) as real < q + 1.0
    ensures q == q.Floor as real ==> RoundUp(q) as real == q
  {
    var f: int := (-q).Floor;
    assert f as real <= -q < f as real + 1.0;
    assert (-f) as real == -(f as real);
    if q == q.Floor as real {
      WholeFloor(q.Floor, f);
    }
  }

  lemma WholeFloor(k: int, f: int)
    requires f as real <= -(k as real) < f as real + 1.0
    ensures f == -k
  {
  }

  function Sum(s: seq<real>): real {
    if s == [] then 0.0 else Sum(s[..|s| - 1]) + s[|s| - 1]
  }

  /** The restartable init containers among the first i keep running. */
  function Sidecars(inits: seq<InitContainer>): real {
    if inits == [] then 0.0
    else Sidecars(inits[..|inits| - 1]) + (if inits[|inits| - 1].policy == Always then inits[|inits| - 1].request else 0.0)
  }

  /** What is reserved while the i-th init container runs: its request and every sidecar started before it. */
  function InitStep(inits: seq<InitContainer>, i: nat): real
    requires i < |inits|
  {
    Sidecars(inits[..i]) + inits[i].request
  }

  /** What is reserved once the pod runs: the containers and all sidecars. */
  function Steady(pod: Pod): real {
    Sum(pod.apps) + Sidecars(pod.inits)
  }

  /** The highest concurrent reservation over the pod's life. */
  predicate IsPeak(pod: Pod, peak: real) {
    && Steady(pod) <= peak && (forall i | 0 <= i < |pod.inits| :: InitStep(pod.inits, i) <= peak) && 0.0 <= peak
    && (peak == Steady(pod) || peak == 0.0 || exists i :: 0 <= i < |pod.inits| && InitStep(pod.inits, i) == peak)
  }

  predicate Supported(pod: Pod) {
    pod.apps != [] && forall i | 0 <= i < |pod.inits| :: pod.inits[i].policy != Unknown
  }

  function Max(a: real, b: real): real {
    if a < b then b else a
  }

  /** pod_effective_resource_request: one pass over the init containers; None stands for the ValueErrors. */
  method EffectiveRequest(pod: Pod) returns (request: Option<real>)
    ensures request.Some? <==> Supported(pod)
    ensures request.Some? ==> IsPeak(pod, request.value - pod.overhead)
  {
    if pod.apps == [] {
      return None;
    }
    var appRequest := 0.0;
    for i := 0 to |pod.apps|
      invariant appRequest == Sum(pod.apps[..i])
    {
      assert pod.apps[..i + 1][..i] == pod.apps[..i];
      appRequest := appRequest + pod.apps[i];
    }
    assert pod.apps[..|pod.apps|] == pod.apps;
    var restartable, init := 0.0, 0.0;
    for i := 0 to |pod.inits|
      invariant restartable == Sidecars(pod.inits[..i]) && 0.0 <= init
      invariant forall j | 0 <= j < i :: pod.inits[j].policy != Unknown && InitStep(pod.inits, j) <= init
      invariant init == 0.0 || exists j :: 0 <= j < i && InitStep(pod.inits, j) == init
    {
      assert pod.inits[..i + 1][..i] == pod.inits[..i];
      var requested := pod.inits[i].request;
      if pod.inits[i].policy == Always {
        restartable := restartable + requested;
        requested := restartable;
      } else if pod.inits[i].policy == Once {
        requested := requested + restartable;
      } else {
        return None;
      }
      assert requested == InitStep(pod.inits, i);
      init := Max(init, requested);
    }
    assert pod.inits[..|pod.inits|] == pod.inits;
    request := Some(Max(appRequest + restartable, init) + pod.overhead);
  }

  lemma PeakIsUnique(pod: Pod, a: real, b: real)
    requires IsPeak(pod, a) && IsPeak(pod, b)
    ensures a == b
  {
  }

  /** Requests of one pod are no larger than another's, container by container. */
  predicate Dominated(p: Pod, q: Pod) {
    && |p.apps| == |q.apps| && (forall i | 0 <= i < |p.apps| :: p.apps[i] <= q.apps[i])
    && |p.inits| == |q.inits|
    && (forall i | 0 <= i < |p.inits| :: p.inits[i].request <= q.inits[i].request && p.inits[i].policy == q.inits[i].policy)
    && p.overhead <= q.overhead
  }

  lemma {:induction false} SumMonotone(a: seq<real>, b: seq<real>)
    requires |a| == |b| && forall i | 0 <= i < |a| :: a[i] <= b[i]
    ensures Sum(a) <= Sum(b)
  {
    if a != [] {
      SumMonotone(a[..|a| - 1], b[..|b| - 1]);
    }
  }

  lemma {:induction false} SidecarsMonotone(a: seq<InitContainer>, b: seq<InitContainer>)
    requires |a| == |b| && forall i | 0 <= i < |a| :: a[i].request <= b[i].request && a[i].policy == b[i].policy
    ensures Sidecars(a) <= Sidecars(b)
  {
    if a != [] {
      SidecarsMonotone(a[..|a| - 1], b[..|b| - 1]);
    }
  }

  /** The effective request is monotone in every single request. */
  lemma RequestMonotone(p: Pod, q: Pod, a: real, b: real)
    requires Dominated(p, q) && IsPeak(p, a) && IsPeak(q, b)
    ensures a <= b
  {
    SumMonotone(p.apps, q.apps);
    SidecarsMonotone(p.inits, q.inits);
    forall i | 0 <= i < |p.inits| ensures InitStep(p.inits, i) <= InitStep(q.inits, i) {
      SidecarsMonotone(p.inits[..i], q.inits[..i]);
    }
  }

  /** The pod as the parsers see it: every quantity rounded up on its own. */
  function Rounded(pod: Pod): Pod {
    Pod(seq(|pod.apps|, i requires 0 <= i < |pod.apps| => RoundUp(pod.apps[i]) as real),
        seq(|pod.inits|, i requires 0 <= i < |pod.inits| => InitContainer(RoundUp(pod.inits[i].request) as real, pod.inits[i].policy)),
        RoundUp(pod.overhead) as real)
  }

  lemma RoundedDominates(pod: Pod)
    ensures Dominated(pod, Rounded(pod))
  {
  }

  /** The exact and the accounted use of a node's pods, each pod at its peak. */
  predicate UsedBy(pods: seq<Pod>, exact: seq<real>, accounted: seq<real>) {
    && |pods| == |exact| == |accounted|
    && forall i | 0 <= i < |pods| ::
         IsPeak(pods[i], exact[i] - pods[i].overhead) && IsPeak(Rounded(pods[i]), accounted[i] - Rounded(pods[i]).overhead)
  }

  lemma AccountedIsEnough(pods: seq<Pod>, exact: seq<real>, accounted: seq<real>)
    requires UsedBy(pods, exact, accounted)
    ensures Sum(exact) <= Sum(accounted)
  {
    forall i | 0 <= i < |pods| ensures exact[i] <= accounted[i] {
      RoundedDominates(pods[i]);
      RequestMonotone(pods[i], Rounded(pods[i]), exact[i] - pods[i].overhead, accounted[i] - Rounded(pods[i]).overhead);
    }
    SumMonotone(exact, accounted);
  }

  /** _describe_node, one resource: what is left covers the requirement; a resource that is not required is skipped. */
  predicate NoShortfall(allocatable: real, used: real, required: real) {
    RoundUp(required) == 0 || RoundUp(allocatable) as real - used >= RoundUp(required) as real
  }

  /** A node without shortfall overcommits by less than one unit, and by nothing when its allocatable amount is whole. */
  lemma ReadyMeansCapacity(pods: seq<Pod>, exact: seq<real>, accounted: seq<real>, allocatable: real, required: real)
    requires UsedBy(pods, exact, accounted) && NoShortfall(allocatable, Sum(accounted), required) && required > 0.0
    ensures allocatable + 1.0 > Sum(exact) + required
    ensures allocatable == allocatable.Floor as real ==> allocatable >= Sum(exact) + required
  {
    AccountedIsEnough(pods, exact, accounted);
    RoundUpBounds(allocatable);
    RoundUpBounds(required);
  }

  /** The unit of slack is real: half a unit of allocatable memory passes for a whole one. */
  lemma RoundingCanOvercommit()
    ensures NoShortfall(0.5, 0.0, 1.0) && 0.5 < 0.0 + 1.0
  {
  }

  /** A resource that is not required is never looked at, so the bound holds for every node exactly when some of it is
      required. */
  lemma BoundIffRequired(required: real)
    requires required >= 0.0
    ensures (forall allocatable, used | NoShortfall(allocatable, used, required) :: allocatable + 1.0 > used + required)
        <==> required > 0.0
  {
    RoundUpBounds(required);
    if required > 0.0 {
      forall allocatable, used | NoShortfall(allocatable, used, required) ensures allocatable + 1.0 > used + required {
        RoundUpBounds(allocatable);
      }
    } else {
      assert NoShortfall(0.0, 1.0, required);
    }
  }
}
