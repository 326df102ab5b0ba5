/**
 * HTTP method handling of the module API router (dist/server.js
 * `normalizeApiMethod`, `normalizeApiMethods`, `methodMatchesRoute`).
 * A route's method set is kept as a duplicate-free sequence in insertion
 * order, the way a JavaScript `Set` iterates.
 */
module ApiMethods {
  import opened Js
  import opened Strings
  import StringOrder

  /** `MODULE_API_METHODS`. */
  const KnownMethods: set<string> := {"GET", "POST", "PUT", "PATCH", "DELETE", "HEAD", "OPTIONS", "ANY"}

  /** `normalizeApiMethod`: trim and upper-case a string; keep it only if it is a known method. */
  function NormalizeApiMethod(v: JsValue): (r: Option<string>)
    ensures r.Some? ==> r.value in KnownMethods
    ensures r.Some? ==> v.JStr?
  {
    var normalized := ToUpper(ToTrimmedString(v));
    if |normalized| == 0 then None
    else if normalized !in KnownMethods then None
    else Some(normalized)
  }

  /** The request's method as the router first reads it: trimmed and upper-cased. */
  function RequestMethod(v: JsValue): string {
    ToUpper(ToTrimmedString(v))
  }

  lemma KnownMethodsAreCanonical(m: string)
    requires m in KnownMethods
    ensures |m| > 0 && Trimmed(m) && HasNoLower(m)
  {
  }

  /** A known method is its own normal form. */
  lemma NormalizeOfNormal(m: string)
    requires ToUpper(ToTrimmedString(JStr(m))) == m && m in KnownMethods
    ensures NormalizeApiMethod(JStr(m)) == Some(m)
  {
    KnownMethodsAreCanonical(m);
  }

  /** Every known method written exactly is its own normal form. */
  lemma NormalizeKnown(m: string)
    requires m in KnownMethods
    ensures NormalizeApiMethod(JStr(m)) == Some(m)
  {
    KnownMethodsAreCanonical(m);
    assert ToUpper(ToTrimmedString(JStr(m))) == m by {
      TrimOfTrimmed(m);
      UpperOfNoLower(m);
    }
    NormalizeOfNormal(m);
  }

  /** Normalisation ignores surrounding whitespace and letter case. */
  lemma NormalizeIgnoresCase(m: string, w1: string, w2: string)
    requires m in KnownMethods
    requires AllWhitespace(w1) && AllWhitespace(w2)
    ensures NormalizeApiMethod(JStr(w1 + ToLower(m) + w2)) == Some(m)
  {
    KnownLowerIsTrimmed(m);
    TrimAroundTrimmed(w1, ToLower(m), w2);
    KnownUpperOfLower(m);
    NormalizeOfLower(w1 + ToLower(m) + w2, m);
  }

  lemma KnownLowerIsTrimmed(m: string)
    requires m in KnownMethods
    ensures Trimmed(ToLower(m))
  {
    KnownMethodsAreCanonical(m);
    ToLowerProperties(m);
  }

  lemma KnownUpperOfLower(m: string)
    requires m in KnownMethods
    ensures ToUpper(ToLower(m)) == m
  {
    KnownMethodsAreCanonical(m);
  }

  lemma NormalizeOfLower(s: string, m: string)
    requires ToUpper(ToTrimmedString(JStr(s))) == m && m in KnownMethods
    ensures NormalizeApiMethod(JStr(s)) == Some(m)
  {
    KnownMethodsAreCanonical(m);
  }

  /** Normalising a normal form changes nothing. */
  lemma NormalizeIdempotent(v: JsValue)
    requires NormalizeApiMethod(v).Some?
    ensures NormalizeApiMethod(JStr(NormalizeApiMethod(v).value)) == NormalizeApiMethod(v)
  {
    NormalizeKnown(NormalizeApiMethod(v).value);
  }

  // ---------------------------------------------------------------------------
  // A route's method set
  // ---------------------------------------------------------------------------

  /** The values `normalizeApiMethods` iterates: an array's items, a truthy value
      alone, or `['GET']`. */
  function MethodSource(spec: JsValue): (r: seq<JsValue>)
    ensures spec.JArray? ==> r == spec.items
    ensures !spec.JArray? && !Truthy(spec) ==> r == [JStr("GET")]
  {
    if spec.JArray? then spec.items
    else if Truthy(spec) then [spec]
    else [JStr("GET")]
  }

  /** Each entry of `source` through `normalizeApiMethod`, in order. */
  function NormalizedEntries(source: seq<JsValue>): (r: seq<Option<string>>)
    ensures |r| == |source|
    ensures forall i :: 0 <= i < |source| ==> r[i] == NormalizeApiMethod(source[i])
  {
    seq(|source|, i requires 0 <= i < |source| => NormalizeApiMethod(source[i]))
  }

  /** Some entry of `source` names `ANY`. */
  predicate ListsAny(source: seq<JsValue>) {
    Some("ANY") in NormalizedEntries(source)
  }

  /** The values present in a sequence of options. */
  function Present(ns: seq<Option<string>>): (r: set<string>)
    ensures forall m :: m in r <==> Some(m) in ns
  {
    var r := set o | o in ns && o.Some? :: o.value;
    assert forall m :: Some(m) in ns ==> Some(m).value in r;
    r
  }

  lemma PresentOfOne(m: string)
    ensures Present([Some(m)]) == {m}
  {
  }

  lemma PresentOfTwo(ns: seq<Option<string>>, a: string, b: string)
    requires |ns| == 2 && ns[0] == Some(a) && ns[1] == Some(b)
    ensures forall m :: m in Present(ns) <==> m == a || m == b
    ensures a != "ANY" && b != "ANY" ==> Some("ANY") !in ns
  {
    assert ns == [Some(a), Some(b)];
  }

  /** The known methods named by the entries of `source`. */
  function Listed(source: seq<JsValue>): set<string> {
    Present(NormalizedEntries(source))
  }

  /** `ListsAny` is "some index names ANY". */
  lemma ListsAnyIff(source: seq<JsValue>)
    ensures ListsAny(source) <==> exists i :: 0 <= i < |source| && NormalizeApiMethod(source[i]) == Some("ANY")
  {
    var n := NormalizedEntries(source);
    if ListsAny(source) {
      var i :| 0 <= i < |n| && n[i] == Some("ANY");
      assert NormalizeApiMethod(source[i]) == Some("ANY");
    }
  }

  /** `Listed` is the set of methods some index names. */
  lemma ListedIff(source: seq<JsValue>, m: string)
    ensures m in Listed(source) <==> exists i :: 0 <= i < |source| && NormalizeApiMethod(source[i]) == Some(m)
  {
    var n := NormalizedEntries(source);
    if m in Listed(source) {
      var i :| 0 <= i < |n| && n[i] == Some(m);
      assert NormalizeApiMethod(source[i]) == Some(m);
    }
  }

  /** Only known methods are ever listed. */
  lemma ListedKnown(source: seq<JsValue>)
    ensures forall m :: m in Listed(source) ==> m in KnownMethods
  {
    var n := NormalizedEntries(source);
    forall m | m in Listed(source) ensures m in KnownMethods {
      var i :| 0 <= i < |n| && n[i] == Some(m);
    }
  }

  /** `Set.prototype.add` on an insertion-ordered set. */
  function Add(s: seq<string>, x: string): (r: seq<string>)
    requires StringOrder.Distinct(s)
    ensures StringOrder.Distinct(r)
    ensures forall y :: y in r <==> y in s || y == x
  {
    if x in s then s else s + [x]
  }

  /** The loop of `normalizeApiMethods` over the normalised entries `ns`,
      continuing from the methods `acc` already added. */
  function CollectMethods(ns: seq<Option<string>>, acc: seq<string>): (r: seq<string>)
    requires StringOrder.Distinct(acc) && "ANY" !in acc
    ensures StringOrder.Distinct(r)
    ensures Some("ANY") in ns ==> r == ["ANY"]
    ensures Some("ANY") !in ns ==> forall m :: m in r <==> m in acc || Some(m) in ns
    decreases |ns|
  {
    if |ns| == 0 then acc
    else
      assert ns == [ns[0]] + ns[1..];
      match ns[0]
      case None =>
        CollectMethods(ns[1..], acc)
      case Some(m) =>
        if m == "ANY" then ["ANY"]
        else
          CollectMethods(ns[1..], Add(acc, m))
  }

  /** `normalizeApiMethods`: `ANY` anywhere makes the route match every method;
      otherwise the listed known methods, or `GET` when none is listed. */
  function NormalizeApiMethods(spec: JsValue): (r: seq<string>)
    ensures |r| > 0 && StringOrder.Distinct(r)
    ensures forall m :: m in r ==> m in KnownMethods
    ensures ListsAny(MethodSource(spec)) ==> r == ["ANY"]
    ensures !ListsAny(MethodSource(spec)) && Listed(MethodSource(spec)) != {} ==>
              forall m :: m in r <==> m in Listed(MethodSource(spec))
    ensures !ListsAny(MethodSource(spec)) && Listed(MethodSource(spec)) == {} ==> r == ["GET"]
  {
    var source := MethodSource(spec);
    var collected := CollectMethods(NormalizedEntries(source), []);
    ListedKnown(source);
    if |collected| == 0 then ["GET"]
    else
      assert collected[0] in collected;
      collected
  }

  /** A duplicate-free sequence holding exactly `m` is `[m]`. */
  lemma SingletonOfDistinct(r: seq<string>, m: string)
    requires StringOrder.Distinct(r) && |r| > 0
    requires forall x :: x in r <==> x == m
    ensures r == [m]
  {
    CountOfOnly(r, m);
    CountInDistinct(r, m);
    assert r[0] in r;
  }

  lemma {:induction false} CountOfOnly(r: seq<string>, m: string)
    requires forall x :: x in r ==> x == m
    ensures multiset(r)[m] == |r|
    decreases |r|
  {
    if |r| > 0 {
      assert r == [r[0]] + r[1..];
      assert r[0] in r;
      assert forall x :: x in r[1..] ==> x in r;
      CountOfOnly(r[1..], m);
    }
  }

  lemma {:induction false} CountInDistinct(r: seq<string>, m: string)
    requires StringOrder.Distinct(r)
    ensures multiset(r)[m] <= 1
    decreases |r|
  {
    if |r| > 0 {
      var t := r[1..];
      assert r == [r[0]] + t;
      assert forall j :: 0 <= j < |t| ==> t[j] == r[j + 1];
      assert StringOrder.Distinct(t);
      CountInDistinct(t, m);
      if r[0] == m {
        assert forall j :: 0 <= j < |t| ==> t[j] != m;
        assert m !in t;
      }
    }
  }

  /** A route whose entries name just `m` accepts exactly `m`. */
  lemma OnlyListed(spec: JsValue, m: string)
    requires !ListsAny(MethodSource(spec)) && Listed(MethodSource(spec)) == {m}
    ensures NormalizeApiMethods(spec) == [m]
  {
    SingletonOfDistinct(NormalizeApiMethods(spec), m);
  }

  /** A truthy non-array `method` is the only entry. */
  lemma LoneSource(v: JsValue)
    requires Truthy(v) && !v.JArray?
    ensures MethodSource(v) == [v]
  {
  }

  /** A source of one entry naming method `m`. */
  lemma OneEntry(v: JsValue, m: string)
    requires NormalizeApiMethod(v) == Some(m) && m != "ANY"
    ensures Listed([v]) == {m}
    ensures !ListsAny([v])
  {
    assert NormalizedEntries([v]) == [Some(m)];
    PresentOfOne(m);
  }

  /** A source of two entries naming methods `a` and `b`. */
  lemma TwoEntries(source: seq<JsValue>, a: string, b: string)
    requires |source| == 2
    requires NormalizeApiMethod(source[0]) == Some(a) && a != "ANY"
    requires NormalizeApiMethod(source[1]) == Some(b) && b != "ANY"
    ensures forall m :: m in Listed(source) <==> m == a || m == b
    ensures !ListsAny(source)
  {
    PresentOfTwo(NormalizedEntries(source), a, b);
  }

  /** A route without any `method` accepts only GET. */
  lemma DefaultMethodIsGet(spec: JsValue)
    requires !spec.JArray? && !Truthy(spec)
    ensures NormalizeApiMethods(spec) == ["GET"]
  {
    NormalizeKnown("GET");
    OneEntry(JStr("GET"), "GET");
    OnlyListed(spec, "GET");
  }

  /** A route declaring one method other than ANY accepts exactly that method. */
  lemma SingleMethod(m: string)
    requires NormalizeApiMethod(JStr(m)) == Some(m) && m != "ANY"
    ensures NormalizeApiMethods(JStr(m)) == [m]
  {
    KnownMethodsAreCanonical(m);
    LoneSource(JStr(m));
    OneEntry(JStr(m), m);
    OnlyListed(JStr(m), m);
  }

  /** A route declaring two methods other than ANY accepts exactly those two. */
  lemma TwoMethods(a: string, b: string)
    requires NormalizeApiMethod(JStr(a)) == Some(a) && a != "ANY"
    requires NormalizeApiMethod(JStr(b)) == Some(b) && b != "ANY"
    ensures forall m :: m in NormalizeApiMethods(JArray([JStr(a), JStr(b)])) <==> m == a || m == b
  {
    var spec := JArray([JStr(a), JStr(b)]);
    TwoEntries([JStr(a), JStr(b)], a, b);
    ListedMethods(spec);
  }

  /** Without ANY, a route accepts exactly the methods it lists, when it lists any. */
  lemma ListedMethods(spec: JsValue)
    requires !ListsAny(MethodSource(spec)) && Listed(MethodSource(spec)) != {}
    ensures forall m :: m in NormalizeApiMethods(spec) <==> m in Listed(MethodSource(spec))
  {
  }

  // ---------------------------------------------------------------------------
  // Matching a request method
  // ---------------------------------------------------------------------------

  /** `methodMatchesRoute`: an ANY route takes every method, and otherwise only
      a request method naming a known method the route lists. */
  predicate MethodMatchesRoute(routeMethods: seq<string>, requestMethod: string): (r: bool)
    ensures "ANY" in routeMethods ==> r
    ensures NormalizeApiMethod(JStr(requestMethod)).None? ==> (r <==> "ANY" in routeMethods)
    ensures r && "ANY" !in routeMethods ==>
              NormalizeApiMethod(JStr(requestMethod)).Some? &&
              NormalizeApiMethod(JStr(requestMethod)).value in routeMethods
  {
    "ANY" in routeMethods ||
    (NormalizeApiMethod(JStr(requestMethod)).Some? &&
     NormalizeApiMethod(JStr(requestMethod)).value in routeMethods)
  }

  /** The router trims and upper-cases the request method before
      `methodMatchesRoute` normalises it again; the second pass changes nothing. */
  lemma RequestMethodNormalizesOnce(v: JsValue)
    ensures NormalizeApiMethod(JStr(RequestMethod(v))) == NormalizeApiMethod(v)
  {
    var t := ToTrimmedString(v);
    ToUpperProperties(t);
    TrimOfTrimmed(ToUpper(t));
  }

  /** A request matches a route exactly when the route takes any method or
      lists the request's normalised method. */
  lemma MethodMatchIff(routeMethods: seq<string>, v: JsValue)
    ensures MethodMatchesRoute(routeMethods, RequestMethod(v)) <==>
            "ANY" in routeMethods ||
            (NormalizeApiMethod(v).Some? && NormalizeApiMethod(v).value in routeMethods)
  {
    RequestMethodNormalizesOnce(v);
  }

  /** A request whose method is not a known method matches only `ANY` routes. */
  lemma UnknownMethodMatchesOnlyAny(routeMethods: seq<string>, v: JsValue)
    requires RequestMethod(v) !in KnownMethods
    ensures MethodMatchesRoute(routeMethods, RequestMethod(v)) <==> "ANY" in routeMethods
  {
    RequestMethodNormalizesOnce(v);
  }
}
