/**
 * The left-to-right loop both routers of dist/server.js run over their
 * compiled tables (lines 434-523 and 541-618). Each route is first reduced to
 * a probe: the parameters its path binds (if it matches), whether it accepts
 * the request method (always, for pages), and its methods. The loop stops at
 * the first route matching on both; on the way it collects the non-ANY methods
 * of the routes that matched on path only.
 */
module RouteScan {
  import StringOrder
  import opened Js
  import ApiMethods

  /** The host's route context: the module and the path below its mount point. */
  datatype RouteContext = RouteContext(moduleId: string, slug: seq<string>)

  datatype Probe = Probe(params: Option<map<string, string>>, methodOk: bool, methods: seq<string>)

  /** The route matches on path and method: the loop dispatches to it. */
  predicate Hit(p: Probe) {
    p.params.Some? && p.methodOk
  }

  /** `m` is added to `allowedMethods`: a non-ANY method of a route that matched
      on path but not on method. */
  predicate Allows(probes: seq<Probe>, m: string) {
    m != "ANY" &&
    exists i :: 0 <= i < |probes| && probes[i].params.Some? && !probes[i].methodOk && m in probes[i].methods
  }

  /** Where the loop stops: at the first hit, or at the end with the allowed
      methods in insertion order. */
  datatype Scan = Found(index: nat, params: map<string, string>) | Exhausted(allowed: seq<string>)

  /** A found route is the first hit and carries its parameters; an exhausted
      scan saw no hit and collected exactly the allowed methods, each once. */
  ghost predicate ScanSpec(probes: seq<Probe>, r: Scan) {
    && (r.Found? ==>
          && r.index < |probes|
          && Hit(probes[r.index])
          && probes[r.index].params == Some(r.params)
          && forall j :: 0 <= j < r.index ==> !Hit(probes[j]))
    && (r.Exhausted? ==>
          && (forall j :: 0 <= j < |probes| ==> !Hit(probes[j]))
          && StringOrder.Distinct(r.allowed)
          && forall m :: m in r.allowed <==> Allows(probes, m))
  }

  /** Add the non-ANY methods of `ms` to the insertion-ordered set `acc`. */
  function AddMethods(acc: seq<string>, ms: seq<string>): (r: seq<string>)
    requires StringOrder.Distinct(acc)
    ensures StringOrder.Distinct(r)
    ensures forall m :: m in r <==> m in acc || (m in ms && m != "ANY")
    decreases |ms|
  {
    if |ms| == 0 then acc
    else
      var next := if ms[0] == "ANY" then acc else ApiMethods.Add(acc, ms[0]);
      assert forall m :: m in ms <==> m == ms[0] || m in ms[1..] by {
        assert ms == [ms[0]] + ms[1..];
      }
      AddMethods(next, ms[1..])
  }

  /** The loop over the whole table. */
  function ScanRoutes(probes: seq<Probe>): (r: Scan)
    ensures r.Found? ==> r.index < |probes|
    ensures r.Exhausted? ==> StringOrder.Distinct(r.allowed)
    decreases |probes|
  {
    if |probes| == 0 then Exhausted([])
    else ScanStep(probes, ScanRoutes(probes[..|probes| - 1]))
  }

  /** One iteration: the loop over all routes but the last, extended by the last. */
  function ScanStep(probes: seq<Probe>, prev: Scan): (r: Scan)
    requires |probes| > 0
    requires prev.Found? ==> prev.index < |probes| - 1
    requires prev.Exhausted? ==> StringOrder.Distinct(prev.allowed)
    ensures r.Found? ==> r.index < |probes|
    ensures r.Exhausted? ==> StringOrder.Distinct(r.allowed)
  {
    var n := |probes| - 1;
    var last := probes[n];
    match prev
    case Found(_, _) => prev
    case Exhausted(allowed) =>
      if last.params.None? then prev
      else if last.methodOk then Found(n, last.params.value)
      else Exhausted(AddMethods(allowed, last.methods))
  }

  /** The step keeps the loop's specification. */
  lemma ScanStepSpec(probes: seq<Probe>, prev: Scan)
    requires |probes| > 0
    requires ScanSpec(probes[..|probes| - 1], prev)
    ensures ScanSpec(probes, ScanStep(probes, prev))
  {
    var n := |probes| - 1;
    var last := probes[n];
    match prev
    case Found(_, _) =>
      KeepsFound(probes, prev);
    case Exhausted(allowed) =>
      if last.params.None? {
        SkipsMiss(probes, allowed);
      } else if last.methodOk {
        FindsLast(probes, allowed);
      } else {
        Collects(probes, allowed);
      }
  }

  /** The loop meets its specification: the first hit, or no hit and exactly the
      allowed methods. */
  lemma {:induction false} ScanRoutesSpec(probes: seq<Probe>)
    ensures ScanSpec(probes, ScanRoutes(probes))
    decreases |probes|
  {
    if |probes| > 0 {
      ScanRoutesSpec(probes[..|probes| - 1]);
      ScanStepSpec(probes, ScanRoutes(probes[..|probes| - 1]));
    }
  }

  lemma AllowsSnoc(probes: seq<Probe>, m: string)
    requires |probes| > 0
    ensures var n := |probes| - 1;
            Allows(probes, m) <==>
            Allows(probes[..n], m) ||
            (m != "ANY" && probes[n].params.Some? && !probes[n].methodOk && m in probes[n].methods)
  {
    var n := |probes| - 1;
    if Allows(probes, m) {
      var i :| 0 <= i < |probes| && probes[i].params.Some? && !probes[i].methodOk && m in probes[i].methods;
      if i < n { assert probes[..n][i] == probes[i]; }
    }
    if Allows(probes[..n], m) {
      var i :| 0 <= i < n && probes[..n][i].params.Some? && !probes[..n][i].methodOk && m in probes[..n][i].methods;
      assert probes[i] == probes[..n][i];
    }
  }

  lemma KeepsFound(probes: seq<Probe>, prev: Scan)
    requires |probes| > 0 && prev.Found?
    requires ScanSpec(probes[..|probes| - 1], prev)
    ensures ScanSpec(probes, prev)
  {
    var n := |probes| - 1;
    assert forall j :: 0 <= j < n ==> probes[..n][j] == probes[j];
  }

  lemma SkipsMiss(probes: seq<Probe>, allowed: seq<string>)
    requires |probes| > 0 && probes[|probes| - 1].params.None?
    requires ScanSpec(probes[..|probes| - 1], Exhausted(allowed))
    ensures ScanSpec(probes, Exhausted(allowed))
  {
    var n := |probes| - 1;
    assert forall j :: 0 <= j < n ==> probes[..n][j] == probes[j];
    forall m ensures m in allowed <==> Allows(probes, m) {
      AllowsSnoc(probes, m);
    }
  }

  lemma FindsLast(probes: seq<Probe>, allowed: seq<string>)
    requires |probes| > 0 && Hit(probes[|probes| - 1])
    requires ScanSpec(probes[..|probes| - 1], Exhausted(allowed))
    ensures ScanSpec(probes, Found(|probes| - 1, probes[|probes| - 1].params.value))
  {
    var n := |probes| - 1;
    assert forall j :: 0 <= j < n ==> probes[..n][j] == probes[j];
  }

  lemma Collects(probes: seq<Probe>, allowed: seq<string>)
    requires |probes| > 0
    requires probes[|probes| - 1].params.Some? && !probes[|probes| - 1].methodOk
    requires ScanSpec(probes[..|probes| - 1], Exhausted(allowed))
    ensures ScanSpec(probes, Exhausted(AddMethods(allowed, probes[|probes| - 1].methods)))
  {
    var n := |probes| - 1;
    var r := AddMethods(allowed, probes[n].methods);
    assert forall j :: 0 <= j < |probes| ==> !Hit(probes[j]) by {
      forall j | 0 <= j < |probes| ensures !Hit(probes[j]) {
        if j < n { assert probes[..n][j] == probes[j]; }
      }
    }
    forall m ensures m in r <==> Allows(probes, m) {
      AllowsSnoc(probes, m);
    }
  }

  /** The loop finds a route exactly when some route is a hit. */
  lemma FoundIffSomeHit(probes: seq<Probe>)
    ensures ScanRoutes(probes).Found? <==> exists i :: 0 <= i < |probes| && Hit(probes[i])
  {
    ScanRoutesSpec(probes);
  }

  /** With no route matching on path, nothing is collected. */
  lemma NoPathMatchCollectsNothing(probes: seq<Probe>)
    requires forall i :: 0 <= i < |probes| ==> probes[i].params.None?
    ensures ScanRoutes(probes) == Exhausted([])
  {
    ScanRoutesSpec(probes);
    var r := ScanRoutes(probes);
    assert r.Exhausted?;
    assert forall m :: m !in r.allowed;
  }

  /** When every route accepts every method, nothing is ever collected. */
  lemma NoMethodMissCollectsNothing(probes: seq<Probe>)
    requires forall i :: 0 <= i < |probes| ==> probes[i].methodOk
    ensures ScanRoutes(probes).Exhausted? ==> ScanRoutes(probes) == Exhausted([])
  {
    ScanRoutesSpec(probes);
    var r := ScanRoutes(probes);
    if r.Exhausted? {
      assert forall m :: m !in r.allowed;
    }
  }

  /** A route that matched on path only, with some non-ANY method, makes the
      collected set non-empty. */
  lemma PathOnlyMatchCollects(probes: seq<Probe>, k: nat, m: string)
    requires forall i :: 0 <= i < |probes| ==> !Hit(probes[i])
    requires k < |probes| && probes[k].params.Some? && m in probes[k].methods && m != "ANY"
    ensures ScanRoutes(probes).Exhausted? && m in ScanRoutes(probes).allowed
  {
    ScanRoutesSpec(probes);
    assert Allows(probes, m);
  }
}
