/**
 * `revalidatePath` and `revalidatePaths` (dist/server.js lines 136-163). The
 * host's adapter is a parameter: unset, or a callback whose outcome for each
 * path is given. A run records the paths handed to the adapter, in order, and
 * the error that ended it early.
 */
module Revalidation {
  import opened Js
  import opened Strings
  import StringOrder

  datatype Adapter = Unconfigured | Configured(revalidate: string -> Outcome<JsValue>)

  /** What `readRevalidationAdapter` throws without an adapter. */
  const NotConfigured: JsValue :=
    JError("Module SDK revalidation adapter not configured. Call configureRevalidation(...) in host bootstrap.")

  datatype Run = Run(calls: seq<string>, failure: Option<JsValue>)

  /** `revalidatePath`: nothing for a blank path (not even the adapter lookup),
      otherwise one call with the trimmed path. */
  function RevalidatePath(adapter: Adapter, path: JsValue): (r: Run)
    ensures |ToTrimmedString(path)| == 0 ==> r == Run([], None)
    ensures |ToTrimmedString(path)| > 0 && adapter.Unconfigured? ==> r == Run([], Some(NotConfigured))
    ensures |ToTrimmedString(path)| > 0 && adapter.Configured? ==>
              && r.calls == [ToTrimmedString(path)]
              && (r.failure.Some? <==> adapter.revalidate(ToTrimmedString(path)).Throws?)
              && (r.failure.Some? ==> adapter.revalidate(ToTrimmedString(path)) == Throws(r.failure.value))
  {
    RevalidateNormalized(adapter, ToTrimmedString(path))
  }

  /** The body of `revalidatePath` once the path is trimmed. */
  function RevalidateNormalized(adapter: Adapter, normalized: string): Run {
    if |normalized| == 0 then Run([], None)
    else match adapter
      case Unconfigured => Run([], Some(NotConfigured))
      case Configured(revalidate) =>
        match revalidate(normalized)
        case Throws(e) => Run([normalized], Some(e))
        case Returns(_) => Run([normalized], None)
  }

  /** Revalidating an already trimmed path trims nothing more. */
  lemma RevalidatePathOfTrimmed(adapter: Adapter, v: JsValue)
    ensures RevalidatePath(adapter, JStr(ToTrimmedString(v))) == RevalidatePath(adapter, v)
  {
    var t := ToTrimmedString(v);
    TrimOfTrimmed(t);
    assert ToTrimmedString(JStr(t)) == t;
  }

  /** The loop of `revalidatePaths`, with the paths already handed over in `seen`. */
  function RevalidateFrom(adapter: Adapter, paths: seq<JsValue>, seen: seq<string>): (r: Run)
    ensures |r.calls| <= |paths|
    ensures adapter.Unconfigured? ==> r.calls == []
    decreases |paths|
  {
    if |paths| == 0 then Run([], None)
    else
      var normalized := ToTrimmedString(paths[0]);
      if |normalized| == 0 || normalized in seen then RevalidateFrom(adapter, paths[1..], seen)
      else
        var step := RevalidatePath(adapter, JStr(normalized));
        if step.failure.Some? then step
        else
          var rest := RevalidateFrom(adapter, paths[1..], seen + [normalized]);
          Run(step.calls + rest.calls, rest.failure)
  }

  /** `revalidatePaths`. */
  function RevalidatePaths(adapter: Adapter, paths: seq<JsValue>): (r: Run)
    ensures |r.calls| <= |paths|
    ensures forall i :: 0 <= i < |r.calls| ==> |r.calls[i]| > 0 && Trimmed(r.calls[i])
    ensures adapter.Unconfigured? ==> r.calls == []
  {
    RevalidateFromCallsFresh(adapter, paths, []);
    RevalidateFrom(adapter, paths, [])
  }

  // ---------------------------------------------------------------------------
  // Reference: the distinct non-blank paths in first-occurrence order
  // ---------------------------------------------------------------------------

  /** The trimmed, non-blank entries, in order. */
  function Candidates(paths: seq<JsValue>): (r: seq<string>)
    ensures |r| <= |paths|
    decreases |paths|
  {
    if |paths| == 0 then []
    else
      var t := ToTrimmedString(paths[0]);
      (if |t| == 0 then [] else [t]) + Candidates(paths[1..])
  }

  /** Every candidate is a non-blank trimmed string. */
  lemma {:induction false} CandidatesNonBlank(paths: seq<JsValue>)
    ensures forall s :: s in Candidates(paths) ==> |s| > 0 && Trimmed(s)
    decreases |paths|
  {
    if |paths| > 0 {
      CandidatesNonBlank(paths[1..]);
    }
  }

  /** The entries of `xs` not in `seen`, in order. */
  function Without(xs: seq<string>, seen: seq<string>): (r: seq<string>)
    ensures |r| <= |xs|
    ensures forall x :: x in r <==> x in xs && x !in seen
    decreases |xs|
  {
    if |xs| == 0 then []
    else (if xs[0] in seen then [] else [xs[0]]) + Without(xs[1..], seen)
  }

  /** Each value at its first occurrence. */
  function Nub(xs: seq<string>): (r: seq<string>)
    decreases |xs|
  {
    if |xs| == 0 then [] else [xs[0]] + Nub(Without(xs[1..], [xs[0]]))
  }

  lemma {:induction false} NubContents(xs: seq<string>)
    ensures StringOrder.Distinct(Nub(xs))
    ensures forall x :: x in Nub(xs) <==> x in xs
    decreases |xs|
  {
    if |xs| > 0 {
      var rest := Without(xs[1..], [xs[0]]);
      NubContents(rest);
      assert forall x :: x in xs <==> x == xs[0] || x in xs[1..] by {
        assert xs == [xs[0]] + xs[1..];
      }
      DistinctCons(xs[0], Nub(rest));
    }
  }

  lemma DistinctCons(x: string, s: seq<string>)
    requires StringOrder.Distinct(s) && x !in s
    ensures StringOrder.Distinct([x] + s)
  {
    forall i, j | 0 <= i < j < |[x] + s| ensures ([x] + s)[i] != ([x] + s)[j] {
      if i == 0 {
        assert ([x] + s)[j] == s[j - 1];
      } else {
        assert ([x] + s)[i] == s[i - 1] && ([x] + s)[j] == s[j - 1];
      }
    }
  }

  lemma WithoutSkips(xs: seq<string>, seen: seq<string>, t: string)
    requires t in seen
    ensures Without([t] + xs, seen) == Without(xs, seen)
  {
    assert ([t] + xs)[1..] == xs;
  }

  lemma WithoutKeeps(xs: seq<string>, seen: seq<string>, t: string)
    requires t !in seen
    ensures Without([t] + xs, seen) == [t] + Without(xs, seen)
  {
    assert ([t] + xs)[1..] == xs;
  }

  lemma {:induction false} WithoutTwice(xs: seq<string>, seen: seq<string>, t: string)
    ensures Without(Without(xs, seen), [t]) == Without(xs, seen + [t])
    decreases |xs|
  {
    if |xs| > 0 {
      var x := xs[0];
      assert xs == [x] + xs[1..];
      WithoutTwice(xs[1..], seen, t);
      if x in seen {
        WithoutSkips(xs[1..], seen, x);
        WithoutSkips(xs[1..], seen + [t], x);
      } else if x == t {
        WithoutKeeps(xs[1..], seen, x);
        WithoutSkips(Without(xs[1..], seen), [t], x);
        WithoutSkips(xs[1..], seen + [t], x);
      } else {
        WithoutKeeps(xs[1..], seen, x);
        WithoutKeeps(Without(xs[1..], seen), [t], x);
        WithoutKeeps(xs[1..], seen + [t], x);
      }
    }
  }

  /** A blank entry adds no candidate. */
  lemma CandidatesSkipBlank(paths: seq<JsValue>)
    requires |paths| > 0 && |ToTrimmedString(paths[0])| == 0
    ensures Candidates(paths) == Candidates(paths[1..])
  {
    assert [] + Candidates(paths[1..]) == Candidates(paths[1..]);
  }

  /** A non-blank entry is the first candidate. */
  lemma CandidatesKeep(paths: seq<JsValue>)
    requires |paths| > 0 && |ToTrimmedString(paths[0])| > 0
    ensures Candidates(paths) == [ToTrimmedString(paths[0])] + Candidates(paths[1..])
  {
  }

  /** A blank or already seen entry adds no candidate. */
  lemma NextSkipped(paths: seq<JsValue>, seen: seq<string>)
    requires |paths| > 0
    requires |ToTrimmedString(paths[0])| == 0 || ToTrimmedString(paths[0]) in seen
    ensures Without(Candidates(paths), seen) == Without(Candidates(paths[1..]), seen)
  {
    var t := ToTrimmedString(paths[0]);
    if |t| == 0 {
      CandidatesSkipBlank(paths);
    } else {
      CandidatesKeep(paths);
      WithoutSkips(Candidates(paths[1..]), seen, t);
    }
  }

  /** A new non-blank entry is the next candidate. */
  lemma NextKept(paths: seq<JsValue>, seen: seq<string>)
    requires |paths| > 0
    requires |ToTrimmedString(paths[0])| > 0 && ToTrimmedString(paths[0]) !in seen
    ensures Without(Candidates(paths), seen) == [ToTrimmedString(paths[0])] + Without(Candidates(paths[1..]), seen)
  {
    CandidatesKeep(paths);
    WithoutKeeps(Candidates(paths[1..]), seen, ToTrimmedString(paths[0]));
  }

  lemma NubStep(t: string, rest: seq<string>, seen: seq<string>)
    ensures Nub([t] + Without(rest, seen)) == [t] + Nub(Without(rest, seen + [t]))
  {
    assert ([t] + Without(rest, seen))[1..] == Without(rest, seen);
    WithoutTwice(rest, seen, t);
  }

  /** `r` hands over a prefix of `w`: all of it when nothing fails, and otherwise
      up to the path whose call failed, with that call's error; every earlier
      call succeeded. */
  predicate Follows(revalidate: string -> Outcome<JsValue>, r: Run, w: seq<string>) {
    && |r.calls| <= |w| && r.calls == w[..|r.calls|]
    && (r.failure.None? ==> r.calls == w)
    && (r.failure.Some? ==> |r.calls| > 0 && revalidate(r.calls[|r.calls| - 1]) == Throws(r.failure.value))
    && (forall k :: 0 <= k < |r.calls| - 1 ==> revalidate(r.calls[k]).Returns?)
    && (r.failure.None? ==> forall k :: 0 <= k < |r.calls| ==> revalidate(r.calls[k]).Returns?)
  }

  lemma FollowsFail(revalidate: string -> Outcome<JsValue>, t: string, e: JsValue, w: seq<string>)
    requires revalidate(t) == Throws(e)
    ensures Follows(revalidate, Run([t], Some(e)), [t] + w)
  {
  }

  lemma FollowsCons(revalidate: string -> Outcome<JsValue>, t: string, rest: Run, w: seq<string>)
    requires revalidate(t).Returns? && Follows(revalidate, rest, w)
    ensures Follows(revalidate, Run([t] + rest.calls, rest.failure), [t] + w)
  {
    var calls := [t] + rest.calls;
    assert forall k :: 1 <= k < |calls| ==> calls[k] == rest.calls[k - 1];
  }

  /** One kept entry: its call, then (if it succeeded) the rest of the run. */
  lemma RunKeeps(revalidate: string -> Outcome<JsValue>, paths: seq<JsValue>, seen: seq<string>)
    requires |paths| > 0
    requires |ToTrimmedString(paths[0])| > 0 && ToTrimmedString(paths[0]) !in seen
    ensures var t := ToTrimmedString(paths[0]);
            RevalidateFrom(Configured(revalidate), paths, seen) ==
            if revalidate(t).Throws? then Run([t], Some(revalidate(t).error))
            else var rest := RevalidateFrom(Configured(revalidate), paths[1..], seen + [t]);
                 Run([t] + rest.calls, rest.failure)
  {
    TrimOfTrimmed(ToTrimmedString(paths[0]));
  }

  lemma {:induction false} RunFollowsReference(revalidate: string -> Outcome<JsValue>, paths: seq<JsValue>, seen: seq<string>)
    ensures Follows(revalidate, RevalidateFrom(Configured(revalidate), paths, seen),
                    Nub(Without(Candidates(paths), seen)))
    decreases |paths|
  {
    if |paths| > 0 {
      var t := ToTrimmedString(paths[0]);
      if |t| == 0 || t in seen {
        NextSkipped(paths, seen);
        RunFollowsReference(revalidate, paths[1..], seen);
      } else {
        NextKept(paths, seen);
        NubStep(t, Candidates(paths[1..]), seen);
        RunKeeps(revalidate, paths, seen);
        var w := Nub(Without(Candidates(paths[1..]), seen + [t]));
        if revalidate(t).Throws? {
          FollowsFail(revalidate, t, revalidate(t).error, w);
        } else {
          RunFollowsReference(revalidate, paths[1..], seen + [t]);
          FollowsCons(revalidate, t, RevalidateFrom(Configured(revalidate), paths[1..], seen + [t]), w);
        }
      }
    }
  }

  /** `revalidatePaths` against an adapter that never fails revalidates each
      distinct non-blank trimmed path once, in first-occurrence order. */
  lemma RevalidatePathsOnce(revalidate: string -> Outcome<JsValue>, paths: seq<JsValue>)
    requires forall s :: revalidate(s).Returns?
    ensures RevalidatePaths(Configured(revalidate), paths) == Run(Nub(Candidates(paths)), None)
    ensures StringOrder.Distinct(Nub(Candidates(paths)))
    ensures forall s :: s in Nub(Candidates(paths)) <==> |s| > 0 && s in Candidates(paths)
  {
    RunFollowsReference(revalidate, paths, []);
    CandidatesNonBlank(paths);
    WithoutNothing(Candidates(paths));
    NubContents(Candidates(paths));
  }

  lemma {:induction false} WithoutNothing(xs: seq<string>)
    ensures Without(xs, []) == xs
    decreases |xs|
  {
    if |xs| > 0 {
      WithoutNothing(xs[1..]);
    }
  }

  /** Every path the loop hands over is non-blank, trimmed and not yet seen. */
  lemma RevalidateFromCallsFresh(adapter: Adapter, paths: seq<JsValue>, seen: seq<string>)
    ensures forall c :: c in RevalidateFrom(adapter, paths, seen).calls ==> |c| > 0 && Trimmed(c) && c !in seen
  {
    match adapter
    case Unconfigured =>
      UnconfiguredFailsOnFirstPath(paths, seen);
    case Configured(revalidate) =>
      var calls := RevalidateFrom(adapter, paths, seen).calls;
      var w := Nub(Without(Candidates(paths), seen));
      RunFollowsReference(revalidate, paths, seen);
      NubContents(Without(Candidates(paths), seen));
      CandidatesNonBlank(paths);
      forall c | c in calls ensures |c| > 0 && Trimmed(c) && c !in seen {
        assert c in w[..|calls|];
      }
  }

  /** Without an adapter, the first non-blank path fails the run before any call. */
  lemma {:induction false} UnconfiguredFailsOnFirstPath(paths: seq<JsValue>, seen: seq<string>)
    ensures RevalidateFrom(Unconfigured, paths, seen) ==
            Run([], if |Without(Candidates(paths), seen)| == 0 then None else Some(NotConfigured))
    decreases |paths|
  {
    if |paths| > 0 {
      var t := ToTrimmedString(paths[0]);
      if |t| == 0 || t in seen {
        NextSkipped(paths, seen);
        UnconfiguredFailsOnFirstPath(paths[1..], seen);
      } else {
        NextKept(paths, seen);
        TrimOfTrimmed(t);
      }
    }
  }
}
