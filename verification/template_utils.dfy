/**
 * The string and number helpers templates use to read loosely typed data
 * (dist/templates/utils.js): class-name merging, trimmed-string reads with a
 * fallback, and finite-number reads with a fallback.
 */
module TemplateUtils {
  import opened Js
  import opened Strings

  // ---------------------------------------------------------------------------
  // mergeClassNames (lines 1-3)
  // ---------------------------------------------------------------------------

  /** `string | false | null | undefined`. */
  datatype ClassNameValue = Name(name: string) | False | Null | Undefined

  /** `Boolean(value)`: a non-empty name. */
  predicate IsKept(v: ClassNameValue) {
    v.Name? && v.name != ""
  }

  /** `values.filter(Boolean)`, as the names left. */
  function KeptNames(values: seq<ClassNameValue>): (r: seq<string>)
    ensures |r| <= |values|
    ensures forall i :: 0 <= i < |r| ==> r[i] != ""
    decreases |values|
  {
    if |values| == 0 then []
    else (if IsKept(values[0]) then [values[0].name] else []) + KeptNames(values[1..])
  }

  /** `mergeClassNames(...values)`. */
  function MergeClassNames(values: seq<ClassNameValue>): (r: string)
    ensures r == "" <==> forall i :: 0 <= i < |values| ==> !IsKept(values[i])
  {
    var k := KeptNames(values);
    KeptNamesEmptyIff(values);
    if |k| > 0 then
      JoinEnds(k, " ");
      Join(k, " ")
    else
      Join(k, " ")
  }

  /** Filtering distributes over concatenation, so kept names stay in order. */
  lemma {:induction false} KeptNamesAppend(a: seq<ClassNameValue>, b: seq<ClassNameValue>)
    ensures KeptNames(a + b) == KeptNames(a) + KeptNames(b)
    decreases |a|
  {
    if |a| == 0 {
      assert a + b == b;
    } else {
      assert (a + b)[0] == a[0];
      assert (a + b)[1..] == a[1..] + b;
      KeptNamesAppend(a[1..], b);
    }
  }

  /** Nothing is dropped from a list of non-empty names. */
  lemma {:induction false} KeptNamesOfNames(values: seq<ClassNameValue>)
    requires forall i :: 0 <= i < |values| ==> values[i].Name? && values[i].name != ""
    ensures |KeptNames(values)| == |values|
    ensures forall i :: 0 <= i < |values| ==> KeptNames(values)[i] == values[i].name
    decreases |values|
  {
    if |values| > 0 {
      KeptNamesOfNames(values[1..]);
    }
  }

  /** Every kept name comes from a value that is kept. */
  lemma {:induction false} KeptNamesEmptyIff(values: seq<ClassNameValue>)
    ensures KeptNames(values) == [] <==> forall i :: 0 <= i < |values| ==> !IsKept(values[i])
    decreases |values|
  {
    if |values| > 0 {
      KeptNamesEmptyIff(values[1..]);
      assert forall i :: 1 <= i < |values| ==> values[i] == values[1..][i - 1];
    }
  }

  /** The merged class is empty exactly when every value is falsy. */
  lemma MergeEmptyIff(values: seq<ClassNameValue>)
    ensures MergeClassNames(values) == "" <==> forall i :: 0 <= i < |values| ==> !IsKept(values[i])
  {
    KeptNamesEmptyIff(values);
    var k := KeptNames(values);
    if |k| > 0 {
      JoinEnds(k, " ");
    }
  }

  /** Splitting the merged class at spaces gives back the kept names, in
      order, when none of them holds a space. */
  lemma MergeSplitsBack(values: seq<ClassNameValue>)
    requires KeptNames(values) != []
    requires forall i :: 0 <= i < |values| ==> IsKept(values[i]) ==> ' ' !in values[i].name
    ensures Split(MergeClassNames(values), ' ') == KeptNames(values)
  {
    KeptNamesHaveNoSpace(values);
    SplitOfJoin(KeptNames(values), ' ');
  }

  lemma {:induction false} KeptNamesHaveNoSpace(values: seq<ClassNameValue>)
    requires forall i :: 0 <= i < |values| ==> IsKept(values[i]) ==> ' ' !in values[i].name
    ensures forall i :: 0 <= i < |KeptNames(values)| ==> ' ' !in KeptNames(values)[i]
    decreases |values|
  {
    if |values| > 0 {
      assert forall i :: 0 <= i < |values| - 1 ==> values[1..][i] == values[i + 1];
      KeptNamesHaveNoSpace(values[1..]);
    }
  }

  /** Merging a merged class again changes nothing. */
  lemma MergeIdempotent(values: seq<ClassNameValue>)
    ensures MergeClassNames([Name(MergeClassNames(values))]) == MergeClassNames(values)
  {
    var m := MergeClassNames(values);
    assert KeptNames([Name(m)]) == (if m != "" then [m] else []);
  }

  // ---------------------------------------------------------------------------
  // toStringOrNull, toStringOrFallback, readString (lines 4-16)
  // ---------------------------------------------------------------------------

  /** `toStringOrNull(value)`: the trimmed string, or null for a non-string or
      a blank string. */
  function ToStringOrNull(v: JsValue): (r: Option<string>)
    ensures r.None? <==> !v.JStr? || AllWhitespace(v.s)
    ensures r.Some? ==> r.value != "" && Trimmed(r.value) && r.value == Trim(v.s)
  {
    if !v.JStr? then None
    else
      var t := Trim(v.s);
      if |t| > 0 then Some(t) else None
  }

  /** A string read back gives itself: the read is idempotent. */
  lemma ToStringOrNullFixed(v: JsValue)
    requires ToStringOrNull(v).Some?
    ensures ToStringOrNull(JStr(ToStringOrNull(v).value)) == ToStringOrNull(v)
  {
    TrimOfTrimmed(ToStringOrNull(v).value);
  }

  /** Surrounding whitespace does not change the read. */
  lemma ToStringOrNullIgnoresWhitespace(w1: string, s: string, w2: string)
    requires AllWhitespace(w1) && AllWhitespace(w2)
    ensures ToStringOrNull(JStr(w1 + s + w2)) == ToStringOrNull(JStr(s))
  {
    TrimIgnoresSurroundingWhitespace(w1, s, w2);
  }

  /** `toStringOrFallback(value, fallback)`. */
  function ToStringOrFallback(v: JsValue, fallback: string): (r: string)
    ensures ToStringOrNull(v).Some? ==> r == ToStringOrNull(v).value
    ensures ToStringOrNull(v).None? ==> r == fallback
  {
    ToStringOrNull(v).GetOr(fallback)
  }

  /** The fallback matters exactly when the value reads as null: two different
      fallbacks give the same result if and only if the value is a non-blank
      string. */
  lemma FallbackUsedIff(v: JsValue, f1: string, f2: string)
    requires f1 != f2
    ensures ToStringOrFallback(v, f1) == ToStringOrFallback(v, f2) <==> v.JStr? && !AllWhitespace(v.s)
  {
  }

  /** `data?.[key]`: `undefined` for missing data or a missing key. */
  function Lookup(data: Option<map<string, JsValue>>, key: string): JsValue {
    if data.Some? && key in data.value then data.value[key] else JUndefined
  }

  /** `readString(data, key, fallback)`. */
  function ReadString(data: Option<map<string, JsValue>>, key: string, fallback: string): (r: string)
    ensures data.None? || key !in data.value ==> r == fallback
    ensures data.Some? && key in data.value ==> r == ToStringOrFallback(data.value[key], fallback)
  {
    ToStringOrFallback(Lookup(data, key), fallback)
  }

  /** `readString(data, key)`: the fallback defaults to the empty string. */
  function ReadStringOrEmpty(data: Option<map<string, JsValue>>, key: string): (r: string)
    ensures r != "" ==> Trimmed(r)
  {
    ReadString(data, key, "")
  }

  /** Without a fallback the read is empty exactly when the data has no
      non-blank string under the key, and otherwise is that string trimmed. */
  lemma ReadStringOrEmptyIff(data: Option<map<string, JsValue>>, key: string)
    ensures var r := ReadStringOrEmpty(data, key);
            && (r == "" <==> !(data.Some? && key in data.value && data.value[key].JStr? && !AllWhitespace(data.value[key].s)))
            && (r != "" ==> r == Trim(data.value[key].s))
  {
  }

  /** Only the entry under `key` matters: changing another entry leaves the read
      alone. */
  lemma ReadStringFrame(data: map<string, JsValue>, key: string, other: string, v: JsValue, fallback: string)
    requires other != key
    ensures ReadString(Some(data[other := v]), key, fallback) == ReadString(Some(data), key, fallback)
  {
  }

  // ---------------------------------------------------------------------------
  // toNumberOrFallback (lines 17-19)
  // ---------------------------------------------------------------------------

  /** `typeof value === 'number' && Number.isFinite(value)`. */
  predicate IsFiniteNumber(v: JsValue) {
    v.JNum? && v.n.Finite?
  }

  /** `toNumberOrFallback(value, fallback)`. */
  function ToNumberOrFallback(v: JsValue, fallback: Number): (r: Number)
    ensures IsFiniteNumber(v) ==> r == v.n
    ensures !IsFiniteNumber(v) ==> r == fallback
  {
    if IsFiniteNumber(v) then v.n else fallback
  }

  /** With a finite fallback the result is always finite, and reading it back
      gives it again. */
  lemma ToNumberFinite(v: JsValue, fallback: Number)
    requires fallback.Finite?
    ensures ToNumberOrFallback(v, fallback).Finite?
    ensures ToNumberOrFallback(JNum(ToNumberOrFallback(v, fallback)), fallback) == ToNumberOrFallback(v, fallback)
  {
  }

  /** The fallback matters exactly when the value is not a finite number:
      `NaN`, the infinities and every non-number fall back. */
  lemma NumberFallbackUsedIff(v: JsValue, f1: Number, f2: Number)
    requires f1 != f2
    ensures ToNumberOrFallback(v, f1) == ToNumberOrFallback(v, f2) <==> IsFiniteNumber(v)
  {
  }
}
