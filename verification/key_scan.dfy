/**
 * The loop shape shared by every list check of `validateModuleManifest`
 * (dist/modules/manifest.js): each entry either has no valid key (reported
 * as invalid), or a key already in the `seen` set (reported as a duplicate
 * and not added again), or a fresh key (added to `seen`, and the entry goes
 * on to its remaining checks).
 */
module KeyScan {
  import opened Js

  datatype Verdict = Invalid | Duplicate(key: string) | Fresh(key: string)

  /** The loop over `keys` with the set `seen` of keys accepted so far. */
  function ScanKeys(keys: seq<Option<string>>, seen: set<string>): (r: seq<Verdict>)
    ensures |r| == |keys|
    ensures forall i :: 0 <= i < |keys| ==> (r[i].Invalid? <==> keys[i].None?)
    ensures forall i :: 0 <= i < |keys| && !r[i].Invalid? ==> keys[i] == Some(r[i].key)
    ensures |keys| > 0 && keys[0].Some? ==> (r[0].Fresh? <==> keys[0].value !in seen)
    decreases |keys|
  {
    if |keys| == 0 then []
    else
      var v := match keys[0]
               case None => Invalid
               case Some(k) => if k in seen then Duplicate(k) else Fresh(k);
      [v] + ScanKeys(keys[1..], if v.Fresh? then seen + {v.key} else seen)
  }

  /** Entry `i` repeats the key of an earlier entry. */
  predicate SeenBefore(keys: seq<Option<string>>, i: nat, k: string)
    requires i <= |keys|
  {
    exists j :: 0 <= j < i && keys[j] == Some(k)
  }

  /** The reference verdict of entry `i`, read off the list directly. */
  function VerdictAt(keys: seq<Option<string>>, seen: set<string>, i: nat): Verdict
    requires i < |keys|
  {
    match keys[i]
    case None => Invalid
    case Some(k) => if k in seen || SeenBefore(keys, i, k) then Duplicate(k) else Fresh(k)
  }

  lemma SeenBeforeShift(keys: seq<Option<string>>, i: nat, k: string)
    requires 0 < i <= |keys|
    ensures SeenBefore(keys, i, k) <==> keys[0] == Some(k) || SeenBefore(keys[1..], i - 1, k)
  {
    if SeenBefore(keys, i, k) && keys[0] != Some(k) {
      var j :| 0 <= j < i && keys[j] == Some(k);
      assert keys[1..][j - 1] == keys[j];
    }
    if SeenBefore(keys[1..], i - 1, k) {
      var j :| 0 <= j < i - 1 && keys[1..][j] == Some(k);
      assert keys[j + 1] == keys[1..][j];
    }
  }

  /** The loop's verdicts are the reference verdicts: an entry is fresh exactly
      when its key is valid, not seen before the loop and not carried by any
      earlier entry. */
  lemma {:induction false} ScanKeysIsFirstOccurrence(keys: seq<Option<string>>, seen: set<string>)
    ensures forall i :: 0 <= i < |keys| ==> ScanKeys(keys, seen)[i] == VerdictAt(keys, seen, i)
    decreases |keys|
  {
    if |keys| > 0 {
      var r := ScanKeys(keys, seen);
      var v := r[0];
      var seen' := if v.Fresh? then seen + {v.key} else seen;
      ScanKeysIsFirstOccurrence(keys[1..], seen');
      forall i | 0 < i < |keys| ensures r[i] == VerdictAt(keys, seen, i) {
        assert r[i] == ScanKeys(keys[1..], seen')[i - 1];
        assert keys[1..][i - 1] == keys[i];
        if keys[i].Some? {
          SeenBeforeShift(keys, i, keys[i].value);
        }
      }
    }
  }

  /** Every pair of entries carries different keys. */
  predicate DistinctKeys(keys: seq<Option<string>>) {
    forall i, j :: 0 <= i < j < |keys| ==> keys[i] != keys[j]
  }

  /** Every verdict lets the entry through. */
  predicate AllFresh(vs: seq<Verdict>) {
    forall i :: 0 <= i < |vs| ==> vs[i].Fresh?
  }

  /** Every entry passes the key checks exactly when every key is valid and no
      key repeats. */
  lemma AllFreshIff(keys: seq<Option<string>>)
    ensures AllFresh(ScanKeys(keys, {})) <==>
            (forall i :: 0 <= i < |keys| ==> keys[i].Some?) && DistinctKeys(keys)
  {
    var r := ScanKeys(keys, {});
    ScanKeysIsFirstOccurrence(keys, {});
    if AllFresh(r) {
      AllFreshIsDistinct(keys, r);
    }
    if (forall i :: 0 <= i < |keys| ==> keys[i].Some?) && DistinctKeys(keys) {
      DistinctIsAllFresh(keys, r);
    }
  }

  lemma AllFreshIsDistinct(keys: seq<Option<string>>, r: seq<Verdict>)
    requires |r| == |keys|
    requires forall i :: 0 <= i < |keys| ==> r[i] == VerdictAt(keys, {}, i)
    requires AllFresh(r)
    ensures forall i :: 0 <= i < |keys| ==> keys[i].Some?
    ensures DistinctKeys(keys)
  {
    forall i | 0 <= i < |keys| ensures keys[i].Some? {
      assert r[i].Fresh?;
    }
    forall i, j | 0 <= i < j < |keys| ensures keys[i] != keys[j] {
      assert r[j].Fresh?;
      FreshIsFirst(keys, i, j);
    }
  }

  lemma FreshIsFirst(keys: seq<Option<string>>, i: nat, j: nat)
    requires i < j < |keys| && VerdictAt(keys, {}, j).Fresh?
    ensures keys[i] != keys[j]
  {
    if keys[i] == keys[j] {
      assert SeenBefore(keys, j, keys[j].value);
    }
  }

  lemma DistinctIsAllFresh(keys: seq<Option<string>>, r: seq<Verdict>)
    requires |r| == |keys|
    requires forall i :: 0 <= i < |keys| ==> r[i] == VerdictAt(keys, {}, i)
    requires forall i :: 0 <= i < |keys| ==> keys[i].Some?
    requires DistinctKeys(keys)
    ensures AllFresh(r)
  {
    forall i | 0 <= i < |keys| ensures r[i].Fresh? {
      NotSeenBefore(keys, i);
    }
  }

  lemma NotSeenBefore(keys: seq<Option<string>>, i: nat)
    requires i < |keys| && keys[i].Some? && DistinctKeys(keys)
    ensures !SeenBefore(keys, i, keys[i].value)
  {
    assert forall j :: 0 <= j < i ==> keys[j] != keys[i];
  }

  // ---------------------------------------------------------------------------
  // The error list of a loop
  // ---------------------------------------------------------------------------

  /** The errors of the entries, in entry order. */
  function Flatten(xss: seq<seq<string>>): (r: seq<string>)
    ensures |r| == 0 <==> forall i :: 0 <= i < |xss| ==> |xss[i]| == 0
    decreases |xss|
  {
    if |xss| == 0 then [] else xss[0] + Flatten(xss[1..])
  }

  /** Every error of every entry appears in the list. */
  lemma {:induction false} FlattenContains(xss: seq<seq<string>>, i: nat, e: string)
    requires i < |xss| && e in xss[i]
    ensures e in Flatten(xss)
    decreases i
  {
    if i > 0 {
      assert xss[1..][i - 1] == xss[i];
      FlattenContains(xss[1..], i - 1, e);
    }
  }
}
