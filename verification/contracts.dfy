/**
 * Template component ids for data tables (dist/datatables/contracts.js):
 * `normalizeSegment`, `buildComponentId`, the six-slot contract and the
 * template pack entries built from it.
 */
module DataTableContracts {
  import opened Js
  import opened Strings
  import opened ManifestIds
  import ModuleManifest

  // ---------------------------------------------------------------------------
  // normalizeSegment (lines 1-8)
  // ---------------------------------------------------------------------------

  /** Positions `i` and `i + 1` both hold a dash. */
  predicate DoubleDashAt(s: string, i: int)
    requires 0 <= i < |s| - 1
  {
    s[i] == '-' && s[i + 1] == '-'
  }

  /** No two dashes in a row. */
  predicate NoDoubleDash(s: string) {
    forall i :: 0 <= i < |s| - 1 ==> !DoubleDashAt(s, i)
  }

  /** Every character is from `[a-z0-9.-]`. */
  predicate AllComponentChars(s: string) {
    forall i :: 0 <= i < |s| ==> IsComponentChar(s[i])
  }

  /** What `normalizeSegment` produces: characters from `[a-z0-9.-]`, no `--`,
      no dash at either end. */
  predicate IsNormalSegment(s: string) {
    && AllComponentChars(s)
    && NoDoubleDash(s)
    && (|s| > 0 ==> s[0] != '-' && s[|s| - 1] != '-')
  }

  lemma TailKeeps(s: string)
    requires |s| > 0
    ensures AllComponentChars(s) ==> AllComponentChars(s[1..])
    ensures NoDoubleDash(s) ==> NoDoubleDash(s[1..])
  {
    assert forall i :: 0 <= i < |s| - 1 ==> s[1..][i] == s[i + 1];
    if NoDoubleDash(s) {
      forall i | 0 <= i < |s| - 2 ensures !DoubleDashAt(s[1..], i) {
        assert !DoubleDashAt(s, i + 1);
      }
    }
  }

  lemma ConsKeeps(c: char, t: string)
    ensures AllComponentChars([c] + t) <==> IsComponentChar(c) && AllComponentChars(t)
    ensures NoDoubleDash(t) && (|t| == 0 || !(c == '-' && t[0] == '-')) ==> NoDoubleDash([c] + t)
  {
    var s := [c] + t;
    assert forall i :: 0 <= i < |t| ==> s[i + 1] == t[i];
    if AllComponentChars(s) {
      assert IsComponentChar(s[0]);
      forall i | 0 <= i < |t| ensures IsComponentChar(t[i]) {
        assert t[i] == s[i + 1];
      }
    }
    if AllComponentChars(t) && IsComponentChar(c) {
      forall i | 0 <= i < |s| ensures IsComponentChar(s[i]) {
        if i > 0 { assert s[i] == t[i - 1]; }
      }
    }
    if NoDoubleDash(t) && (|t| == 0 || !(c == '-' && t[0] == '-')) {
      forall i | 0 <= i < |s| - 1 ensures !DoubleDashAt(s, i) {
        if i > 0 { assert !DoubleDashAt(t, i - 1); }
      }
    }
  }

  lemma SliceKeeps(s: string, k: nat, n: nat)
    requires k + n <= |s|
    ensures AllComponentChars(s) ==> AllComponentChars(s[k..k + n])
    ensures NoDoubleDash(s) ==> NoDoubleDash(s[k..k + n])
  {
    var t := s[k..k + n];
    assert forall i :: 0 <= i < n ==> t[i] == s[k + i];
    if NoDoubleDash(s) {
      forall i | 0 <= i < n - 1 ensures !DoubleDashAt(t, i) {
        assert !DoubleDashAt(s, k + i);
      }
    }
  }

  /** The leading run of characters outside `[a-z0-9.-]` dropped. */
  function DropDisallowed(s: string): (r: string)
    ensures |r| <= |s| && r == s[|s| - |r|..]
    ensures r == "" || IsComponentChar(r[0])
    decreases |s|
  {
    if |s| > 0 && !IsComponentChar(s[0]) then DropDisallowed(s[1..]) else s
  }

  /** `replace(/[^a-z0-9.-]+/g, '-')`: every maximal run of other characters
      becomes one dash. */
  function ReplaceDisallowed(s: string): (r: string)
    ensures AllComponentChars(r)
    ensures AllComponentChars(s) ==> r == s
    decreases |s|
  {
    if |s| == 0 then ""
    else if IsComponentChar(s[0]) then
      var rest := ReplaceDisallowed(s[1..]);
      TailKeeps(s);
      ConsKeeps(s[0], rest);
      [s[0]] + rest
    else
      var rest := ReplaceDisallowed(DropDisallowed(s[1..]));
      ConsKeeps('-', rest);
      ['-'] + rest
  }

  /** The run of dashes at the start of `s` dropped, with the first dash. */
  function AfterDashes(s: string): (r: string)
    requires |s| > 0 && s[0] == '-'
    ensures |r| < |s| && r == s[|s| - |r|..]
    ensures r == "" || r[0] != '-'
  {
    var t := s[1..];
    var r := StripLeading(t, '-');
    assert r == t[|t| - |r|..];
    assert t[|t| - |r|..] == s[|s| - |r|..];
    r
  }

  /** A single leading dash is the whole run. */
  lemma AfterSingleDash(s: string)
    requires |s| > 0 && s[0] == '-' && NoDoubleDash(s)
    ensures AfterDashes(s) == s[1..]
  {
    if |s| > 1 {
      assert !DoubleDashAt(s, 0);
    }
  }

  /** `replace(/-{2,}/g, '-')`: every run of dashes becomes one dash. */
  function CollapseDashes(s: string): (r: string)
    ensures NoDoubleDash(r)
    ensures AllComponentChars(s) ==> AllComponentChars(r)
    ensures |s| > 0 ==> |r| > 0 && r[0] == s[0]
    ensures NoDoubleDash(s) ==> r == s
    decreases |s|
  {
    if |s| == 0 then ""
    else if s[0] == '-' then
      var rest := AfterDashes(s);
      var tail := CollapseDashes(rest);
      assert NoDoubleDash(s) ==> rest == s[1..] && NoDoubleDash(rest) by {
        if NoDoubleDash(s) { AfterSingleDash(s); TailKeeps(s); }
      }
      SliceKeeps(s, |s| - |rest|, |rest|);
      ConsKeeps('-', tail);
      ['-'] + tail
    else
      var tail := CollapseDashes(s[1..]);
      TailKeeps(s);
      ConsKeeps(s[0], tail);
      [s[0]] + tail
  }

  /** `replace(/^-+|-+$/g, '')`: dashes dropped from both ends. */
  function StripDashes(s: string): (r: string)
    ensures r == "" || (r[0] != '-' && r[|r| - 1] != '-')
    ensures AllComponentChars(s) ==> AllComponentChars(r)
    ensures NoDoubleDash(s) ==> NoDoubleDash(r)
  {
    var a := StripLeading(s, '-');
    var r := StripTrailing(a, '-');
    StrippedSlice(s, a, r);
    r
  }

  /** A prefix of a suffix of `s`, with no dash at either end, keeps what
      `s` had of the segment conditions. */
  lemma StrippedSlice(s: string, a: string, r: string)
    requires |a| <= |s| && a == s[|s| - |a|..] && (a == "" || a[0] != '-')
    requires |r| <= |a| && r == a[..|r|] && (r == "" || r[|r| - 1] != '-')
    ensures r == "" || (r[0] != '-' && r[|r| - 1] != '-')
    ensures AllComponentChars(s) ==> AllComponentChars(r)
    ensures NoDoubleDash(s) ==> NoDoubleDash(r)
  {
    assert r == s[|s| - |a|..|s| - |a| + |r|];
    assert r != "" ==> r[0] == a[0];
    SliceKeeps(s, |s| - |a|, |r|);
  }

  /** `normalizeSegment(value)`. Case mapping is ASCII only. */
  function NormalizeSegment(value: string): (r: string)
    ensures IsNormalSegment(r)
  {
    StripDashes(CollapseDashes(ReplaceDisallowed(ToLower(Trim(value)))))
  }

  /** A normal segment passes through each clean-up pass unchanged. */
  lemma NormalPassesUnchanged(s: string)
    requires IsNormalSegment(s)
    ensures Trim(s) == s
    ensures ToLower(s) == s
    ensures ReplaceDisallowed(s) == s
    ensures CollapseDashes(s) == s
    ensures StripDashes(s) == s
  {
    assert Trimmed(s) by {
      if |s| > 0 {
        assert IsComponentChar(s[0]) && IsComponentChar(s[|s| - 1]);
      }
    }
    TrimOfTrimmed(s);
    LowerOfNoUpper(s);
    if |s| > 0 {
      assert StripLeading(s, '-') == s;
      assert StripTrailing(s, '-') == s;
    }
  }

  /** The segments left unchanged are exactly the normal ones. */
  lemma NormalizeFixedIff(s: string)
    ensures NormalizeSegment(s) == s <==> IsNormalSegment(s)
  {
    if IsNormalSegment(s) {
      NormalPassesUnchanged(s);
    }
  }

  /** `normalizeSegment` is idempotent. */
  lemma NormalizeIdempotent(value: string)
    ensures NormalizeSegment(NormalizeSegment(value)) == NormalizeSegment(value)
  {
    NormalizeFixedIff(NormalizeSegment(value));
  }

  // ---------------------------------------------------------------------------
  // buildComponentId (lines 9-22)
  // ---------------------------------------------------------------------------

  /** The error `assertNonEmptySegment` throws for an empty segment. */
  function RequiredSegmentError(segment: string): JsValue {
    JError("[sdk-datatable] " + segment + " is required to build template component ids.")
  }

  /** `${a}.${b}`. */
  function JoinDot(a: string, b: string): string {
    a + ['.'] + b
  }

  /** The full id of `slot` under the normalized moduleId `m` and resource `res`. */
  function SlotId(m: string, res: string, slot: string): string {
    JoinDot(JoinDot(JoinDot(m, "datatable"), res), slot)
  }

  /** The checks and the template of `buildComponentId`, on segments that are
      already normalized: moduleId, resource and slot are checked for
      emptiness in that order. */
  function ComposeId(m: string, res: string, s: string): (r: Outcome<string>)
    ensures r.Returns? <==> m != "" && res != "" && s != ""
    ensures r.Returns? && IsNormalSegment(m) && IsNormalSegment(res) && IsNormalSegment(s) ==> IsNormalSegment(r.value)
  {
    if |m| == 0 then Throws(RequiredSegmentError("moduleId"))
    else if |res| == 0 then Throws(RequiredSegmentError("resource"))
    else if |s| == 0 then Throws(RequiredSegmentError("slot"))
    else
      assert IsNormalSegment(m) && IsNormalSegment(res) && IsNormalSegment(s) ==> IsNormalSegment(SlotId(m, res, s)) by {
        if IsNormalSegment(m) && IsNormalSegment(res) && IsNormalSegment(s) {
          SlotIdNormal(m, res, s);
        }
      }
      Returns(SlotId(m, res, s))
  }

  /** `buildComponentId({ moduleId, resource, slot })`: the id is itself a
      normal segment. */
  function BuildComponentId(moduleId: string, resource: string, slot: string): (r: Outcome<string>)
    ensures r.Returns? ==> IsNormalSegment(r.value)
  {
    ComposeId(NormalizeSegment(moduleId), NormalizeSegment(resource), NormalizeSegment(slot))
  }

  /** Joining two non-empty normal segments with a dot gives a normal segment. */
  lemma JoinDotNormal(a: string, b: string)
    requires |a| > 0 && |b| > 0 && IsNormalSegment(a) && IsNormalSegment(b)
    ensures IsNormalSegment(JoinDot(a, b))
  {
    var j := JoinDot(a, b);
    assert forall i :: 0 <= i < |a| ==> j[i] == a[i];
    assert forall i :: 0 <= i < |b| ==> j[|a| + 1 + i] == b[i];
    forall i | 0 <= i < |j| ensures IsComponentChar(j[i]) {
      if i > |a| { assert j[i] == b[i - |a| - 1]; }
    }
    forall i | 0 <= i < |j| - 1 ensures !DoubleDashAt(j, i) {
      if i < |a| - 1 {
        assert !DoubleDashAt(a, i);
      } else if i > |a| {
        assert j[i] == b[i - |a| - 1] && j[i + 1] == b[i - |a|];
        assert !DoubleDashAt(b, i - |a| - 1);
      }
    }
  }

  lemma SlotIdNormal(m: string, res: string, slot: string)
    requires |m| > 0 && |res| > 0 && |slot| > 0
    requires IsNormalSegment(m) && IsNormalSegment(res) && IsNormalSegment(slot)
    ensures IsNormalSegment(SlotId(m, res, slot))
  {
    WordIsNormal("datatable");
    JoinDotNormal(m, "datatable");
    JoinDotNormal(JoinDot(m, "datatable"), res);
    JoinDotNormal(JoinDot(JoinDot(m, "datatable"), res), slot);
  }

  /** An id is thrown for exactly when a normalized segment is empty. */
  lemma BuildComponentIdThrowsIff(moduleId: string, resource: string, slot: string)
    ensures BuildComponentId(moduleId, resource, slot).Throws? <==>
            NormalizeSegment(moduleId) == "" || NormalizeSegment(resource) == "" || NormalizeSegment(slot) == ""
  {
  }

  /** The error names the first empty segment, in the order moduleId, resource,
      slot. */
  lemma ComposeIdFirstError(m: string, res: string, s: string)
    ensures m == "" ==> ComposeId(m, res, s) == Throws(RequiredSegmentError("moduleId"))
    ensures m != "" && res == "" ==> ComposeId(m, res, s) == Throws(RequiredSegmentError("resource"))
    ensures m != "" && res != "" && s == "" ==> ComposeId(m, res, s) == Throws(RequiredSegmentError("slot"))
  {
  }

  /** A built id is the three segments around `datatable`, joined by dots. */
  lemma ComposeIdShape(m: string, res: string, s: string)
    requires ComposeId(m, res, s).Returns?
    ensures var id := ComposeId(m, res, s).value;
            && StartsWith(id, m + ".datatable.")
            && EndsWith(id, "." + s)
            && |id| == |m| + |res| + |s| + 12
  {
    var id := ComposeId(m, res, s).value;
    assert id == m + ".datatable." + res + "." + s;
    assert id[..|m| + 11] == m + ".datatable.";
    assert id[|id| - |s| - 1..] == "." + s;
  }

  /** Rebuilding from the parts of a built id gives the same id, and the id
      itself is left unchanged by normalization. */
  lemma BuildComponentIdStable(moduleId: string, resource: string, slot: string)
    requires BuildComponentId(moduleId, resource, slot).Returns?
    ensures var id := BuildComponentId(moduleId, resource, slot).value;
            NormalizeSegment(id) == id &&
            BuildComponentId(NormalizeSegment(moduleId), NormalizeSegment(resource), NormalizeSegment(slot)) == Returns(id)
  {
    NormalizeFixedIff(BuildComponentId(moduleId, resource, slot).value);
    NormalizeIdempotent(moduleId);
    NormalizeIdempotent(resource);
    NormalizeIdempotent(slot);
  }

  // ---------------------------------------------------------------------------
  // createDataTableTemplateContract (lines 23-56)
  // ---------------------------------------------------------------------------

  /** The contract's keys, in declaration order. */
  const SlotNames: seq<string> := ["table", "toolbar", "row-actions", "create-form", "edit-form", "delete-action"]

  /** One key of the contract object and its component id. */
  datatype ContractSlot = ContractSlot(slot: string, componentId: string)

  /** The ids of `slots` under the normalized moduleId `m` and resource `res`,
      built in order; the first failure is the outcome. The slots are taken as
      already normalized: `SlotNamesNormal` shows normalization keeps the six
      slot names. */
  function BuildSlots(m: string, res: string, slots: seq<string>): (r: Outcome<seq<ContractSlot>>)
    ensures r.Returns? ==>
              && |r.value| == |slots|
              && forall i :: 0 <= i < |slots| ==>
                   r.value[i].slot == slots[i] && ComposeId(m, res, slots[i]) == Returns(r.value[i].componentId)
    decreases |slots|
  {
    if |slots| == 0 then Returns([])
    else match ComposeId(m, res, slots[0])
      case Throws(e) => Throws(e)
      case Returns(id) =>
        match BuildSlots(m, res, slots[1..])
        case Throws(e) => Throws(e)
        case Returns(rest) => Returns([ContractSlot(slots[0], id)] + rest)
  }

  /** `createDataTableTemplateContract({ moduleId, resource })`: one
      `buildComponentId` per slot, in key order. */
  function CreateContract(moduleId: string, resource: string): (r: Outcome<seq<ContractSlot>>)
    ensures r.Returns? <==> NormalizeSegment(moduleId) != "" && NormalizeSegment(resource) != ""
    ensures NormalizeSegment(moduleId) == "" ==> r == Throws(RequiredSegmentError("moduleId"))
    ensures r.Returns? ==>
              && |r.value| == |SlotNames|
              && forall i :: 0 <= i < |SlotNames| ==> r.value[i].slot == SlotNames[i]
  {
    var m := NormalizeSegment(moduleId);
    var res := NormalizeSegment(resource);
    SlotNamesNormal();
    if m != "" && res != "" then
      AllSlotsBuild(m, res, SlotNames);
      BuildSlots(m, res, SlotNames)
    else
      ComposeIdFirstError(m, res, SlotNames[0]);
      FirstSlotFails(m, res, SlotNames);
      BuildSlots(m, res, SlotNames)
  }

  /** The slot names are plain words, so normalization keeps them. */
  lemma SlotNamesNormal()
    ensures forall i :: 0 <= i < |SlotNames| ==> |SlotNames[i]| > 0 && NormalizeSegment(SlotNames[i]) == SlotNames[i]
  {
    SlotNamesWords();
    forall i | 0 <= i < |SlotNames| ensures |SlotNames[i]| > 0 && NormalizeSegment(SlotNames[i]) == SlotNames[i] {
      WordIsNormal(SlotNames[i]);
    }
  }

  lemma {:induction false} AllSlotsBuild(m: string, res: string, slots: seq<string>)
    requires m != "" && res != ""
    requires forall i :: 0 <= i < |slots| ==> slots[i] != ""
    ensures BuildSlots(m, res, slots).Returns?
    decreases |slots|
  {
    if |slots| > 0 {
      AllSlotsBuild(m, res, slots[1..]);
    }
  }

  /** A failing first slot is the outcome of the whole contract. */
  lemma FirstSlotFails(m: string, res: string, slots: seq<string>)
    requires |slots| > 0 && ComposeId(m, res, slots[0]).Throws?
    ensures BuildSlots(m, res, slots) == Throws(ComposeId(m, res, slots[0]).error)
  {
  }

  /** The contract exists exactly when moduleId and resource normalize to
      something, and the moduleId error comes first. */
  lemma ContractThrows(moduleId: string, resource: string)
    ensures var r := CreateContract(moduleId, resource);
            var m := NormalizeSegment(moduleId);
            var res := NormalizeSegment(resource);
            && (r.Returns? <==> m != "" && res != "")
            && (m == "" ==> r == Throws(RequiredSegmentError("moduleId")))
            && (m != "" && res == "" ==> r == Throws(RequiredSegmentError("resource")))
  {
    SlotNamesNormal();
    var m := NormalizeSegment(moduleId);
    var res := NormalizeSegment(resource);
    if m != "" && res != "" {
      AllSlotsBuild(m, res, SlotNames);
    } else {
      ComposeIdFirstError(m, res, SlotNames[0]);
      FirstSlotFails(m, res, SlotNames);
    }
  }

  /** A contract has the six slots in key order, each id being exactly what
      `buildComponentId` gives for that slot. */
  lemma ContractSlots(moduleId: string, resource: string)
    requires CreateContract(moduleId, resource).Returns?
    ensures var c := CreateContract(moduleId, resource).value;
            && |c| == |SlotNames|
            && forall i :: 0 <= i < |c| ==>
                 c[i].slot == SlotNames[i] && BuildComponentId(moduleId, resource, SlotNames[i]) == Returns(c[i].componentId)
  {
    SlotNamesNormal();
    var c := CreateContract(moduleId, resource).value;
    forall i | 0 <= i < |c| ensures BuildComponentId(moduleId, resource, SlotNames[i]) == Returns(c[i].componentId) {
      BuildIsCompose(moduleId, resource, SlotNames[i]);
    }
  }

  lemma BuildIsCompose(moduleId: string, resource: string, slot: string)
    requires NormalizeSegment(slot) == slot
    ensures BuildComponentId(moduleId, resource, slot) == ComposeId(NormalizeSegment(moduleId), NormalizeSegment(resource), slot)
  {
  }

  /** Each id of a contract is the slot's name under `<moduleId>.datatable.<resource>`. */
  lemma ContractIds(moduleId: string, resource: string)
    requires CreateContract(moduleId, resource).Returns?
    ensures var c := CreateContract(moduleId, resource).value;
            forall i :: 0 <= i < |c| ==>
              c[i].componentId == SlotId(NormalizeSegment(moduleId), NormalizeSegment(resource), SlotNames[i])
  {
    BuiltIds(NormalizeSegment(moduleId), NormalizeSegment(resource), SlotNames, CreateContract(moduleId, resource).value);
  }

  /** Built slots carry the slot ids, in order. */
  lemma BuiltIds(m: string, res: string, slots: seq<string>, c: seq<ContractSlot>)
    requires BuildSlots(m, res, slots) == Returns(c)
    ensures |c| == |slots|
    ensures forall i :: 0 <= i < |c| ==> c[i].componentId == SlotId(m, res, slots[i])
  {
  }

  lemma DotSuffixDiffers(p: string, a: string, b: string)
    requires a != b
    ensures JoinDot(p, a) != JoinDot(p, b)
  {
    assert JoinDot(p, a)[|p| + 1..] == a;
    assert JoinDot(p, b)[|p| + 1..] == b;
  }

  /** The slot names differ pairwise, told apart by length or first letter. */
  lemma SlotNamesDistinct()
    ensures forall i, j :: 0 <= i < j < |SlotNames| ==> SlotNames[i] != SlotNames[j]
  {
    assert forall i, j :: 0 <= i < j < |SlotNames| ==>
      |SlotNames[i]| != |SlotNames[j]| || SlotNames[i][0] != SlotNames[j][0];
  }

  /** The six component ids are pairwise different. */
  lemma ContractIdsDistinct(moduleId: string, resource: string)
    requires CreateContract(moduleId, resource).Returns?
    ensures var c := CreateContract(moduleId, resource).value;
            forall i, j :: 0 <= i < j < |c| ==> c[i].componentId != c[j].componentId
  {
    var m := NormalizeSegment(moduleId);
    var res := NormalizeSegment(resource);
    var c := CreateContract(moduleId, resource).value;
    BuiltIds(m, res, SlotNames, c);
    SlotNamesDistinct();
    DistinctSuffixIds(JoinDot(JoinDot(m, "datatable"), res), c, SlotNames);
  }

  /** Ids that append pairwise different names to one prefix differ pairwise. */
  lemma DistinctSuffixIds(prefix: string, c: seq<ContractSlot>, names: seq<string>)
    requires |c| == |names|
    requires forall i :: 0 <= i < |c| ==> c[i].componentId == JoinDot(prefix, names[i])
    requires forall i, j :: 0 <= i < j < |names| ==> names[i] != names[j]
    ensures forall i, j :: 0 <= i < j < |c| ==> c[i].componentId != c[j].componentId
  {
    forall i, j | 0 <= i < j < |c| ensures c[i].componentId != c[j].componentId {
      DotSuffixDiffers(prefix, names[i], names[j]);
    }
  }

  // ---------------------------------------------------------------------------
  // createDataTableTemplateEntries (lines 57-72)
  // ---------------------------------------------------------------------------

  /** The per-slot options; a missing option object or map is an empty map. */
  datatype EntryOptions = EntryOptions(
    payloadBySlot: map<string, JsValue>,
    descriptionBySlot: map<string, string>,
    lockTemplateBySlot: map<string, JsValue>)

  /** A template pack entry; `lockTemplate` false is the property left out. */
  datatype PackEntry = PackEntry(componentId: string, description: string, payload: Option<JsValue>, lockTemplate: bool)

  function DefaultDescription(slot: string): string {
    "Datatable template slot \"" + slot + "\""
  }

  function CreateEntry(c: ContractSlot, options: EntryOptions): (r: PackEntry)
    ensures r.componentId == c.componentId
    ensures c.slot !in options.descriptionBySlot ==> r.description == DefaultDescription(c.slot)
    ensures c.slot in options.descriptionBySlot ==> r.description == options.descriptionBySlot[c.slot]
    ensures r.payload.Some? <==> c.slot in options.payloadBySlot && Truthy(options.payloadBySlot[c.slot])
    ensures r.payload.Some? ==> r.payload.value == options.payloadBySlot[c.slot]
    ensures r.lockTemplate <==> c.slot in options.lockTemplateBySlot && options.lockTemplateBySlot[c.slot] == JBool(true)
  {
    var description := if c.slot in options.descriptionBySlot then options.descriptionBySlot[c.slot] else DefaultDescription(c.slot);
    var payload := if c.slot in options.payloadBySlot then options.payloadBySlot[c.slot] else JUndefined;
    var lock := if c.slot in options.lockTemplateBySlot then options.lockTemplateBySlot[c.slot] else JUndefined;
    PackEntry(c.componentId, description, if Truthy(payload) then Some(payload) else None, lock == JBool(true))
  }

  /** One entry per contract key, in key order. Each entry keeps its slot's
      component id, and its payload and lock come from its own slot only. */
  function CreateEntries(contract: seq<ContractSlot>, options: EntryOptions): (r: seq<PackEntry>)
    ensures |r| == |contract|
    ensures forall i :: 0 <= i < |contract| ==> r[i] == CreateEntry(contract[i], options)
    ensures forall i :: 0 <= i < |contract| ==> r[i].componentId == contract[i].componentId
    ensures forall i :: 0 <= i < |contract| && r[i].payload.Some? ==>
              contract[i].slot in options.payloadBySlot && Truthy(r[i].payload.value)
    ensures forall i :: 0 <= i < |contract| ==>
              (r[i].lockTemplate <==> contract[i].slot in options.lockTemplateBySlot &&
                                      options.lockTemplateBySlot[contract[i].slot] == JBool(true))
  {
    seq(|contract|, i requires 0 <= i < |contract| => CreateEntry(contract[i], options))
  }

  /** Without options every entry carries the default description and neither
      a payload nor a lock. */
  lemma EntriesWithoutOptions(contract: seq<ContractSlot>)
    ensures forall e :: e in CreateEntries(contract, EntryOptions(map[], map[], map[])) ==>
              e.payload.None? && !e.lockTemplate
    ensures var r := CreateEntries(contract, EntryOptions(map[], map[], map[]));
            forall i :: 0 <= i < |contract| ==> r[i].description == DefaultDescription(contract[i].slot)
  {
  }

  // ---------------------------------------------------------------------------
  // The contract against the manifest validator
  // ---------------------------------------------------------------------------

  /** Lower-case alphanumeric runs joined by single dots or dashes. */
  predicate ComponentWord(s: string) {
    && |s| > 0
    && AllComponentChars(s)
    && IsLowerAlnum(s[0])
    && IsLowerAlnum(s[|s| - 1])
    && NoDoubleSeparator(s)
  }

  lemma JoinDotWord(a: string, b: string)
    requires ComponentWord(a) && ComponentWord(b)
    ensures ComponentWord(JoinDot(a, b)) && ComponentIdPattern(JoinDot(a, b))
  {
    var j := JoinDot(a, b);
    assert forall i :: 0 <= i < |a| ==> j[i] == a[i];
    assert forall i :: 0 <= i < |b| ==> j[|a| + 1 + i] == b[i];
    assert IsSeparator(j[|a|]);
    forall i | 0 <= i < |j| ensures IsComponentChar(j[i]) {
      if i > |a| { assert j[i] == b[i - |a| - 1]; }
    }
    forall i | 0 <= i < |j| - 1 ensures !DoubleSeparatorAt(j, i) {
      if i < |a| - 1 {
        assert !DoubleSeparatorAt(a, i);
      } else if i > |a| {
        assert j[i] == b[i - |a| - 1] && j[i + 1] == b[i - |a|];
        assert !DoubleSeparatorAt(b, i - |a| - 1);
      }
    }
  }

  /** A plain word is a normal segment, so normalization keeps it. */
  lemma WordIsNormal(s: string)
    requires ComponentWord(s)
    ensures IsNormalSegment(s) && NormalizeSegment(s) == s
  {
    WordHasNoDoubleDash(s);
    NormalizeFixedIff(s);
  }

  lemma WordHasNoDoubleDash(s: string)
    requires NoDoubleSeparator(s)
    ensures NoDoubleDash(s)
  {
    forall i | 0 <= i < |s| - 1 ensures !DoubleDashAt(s, i) {
      assert !DoubleSeparatorAt(s, i);
    }
  }

  lemma SlotNamesWords()
    ensures ComponentWord("datatable")
    ensures forall i :: 0 <= i < |SlotNames| ==> ComponentWord(SlotNames[i])
  {
    PlainWord("datatable");
    PlainWord("table");
    PlainWord("toolbar");
    DashedWord("row-actions", 3);
    DashedWord("create-form", 6);
    DashedWord("edit-form", 4);
    DashedWord("delete-action", 6);
  }

  /** Lower-case letters alone make a word. */
  lemma PlainWord(s: string)
    requires |s| > 0 && forall i :: 0 <= i < |s| ==> 'a' <= s[i] <= 'z'
    ensures ComponentWord(s)
  {
    forall i | 0 <= i < |s| - 1 ensures !DoubleSeparatorAt(s, i) {
    }
  }

  /** Two runs of lower-case letters joined by one dash make a word. */
  lemma DashedWord(s: string, k: nat)
    requires 0 < k < |s| - 1 && s[k] == '-'
    requires forall i :: 0 <= i < |s| && i != k ==> 'a' <= s[i] <= 'z'
    ensures ComponentWord(s)
  {
    forall i | 0 <= i < |s| - 1 ensures !DoubleSeparatorAt(s, i) {
    }
  }

  /** Characters from `[a-z0-9.-]` are neither upper case nor whitespace. */
  lemma ComponentCharsPlain(s: string)
    requires AllComponentChars(s)
    ensures HasNoUpper(s) && Trimmed(s)
  {
    if |s| > 0 {
      assert IsComponentChar(s[0]) && IsComponentChar(s[|s| - 1]);
    }
  }

  /** Trimming and lower-casing leave such characters alone. */
  lemma PlainReadsBack(s: string)
    requires AllComponentChars(s)
    ensures ToLower(Trim(s)) == s
  {
    ComponentCharsPlain(s);
    TrimOfTrimmed(s);
    LowerOfNoUpper(s);
  }

  /** A component id is read back by the manifest validator as itself. */
  lemma WordIsOwnKey(s: string)
    requires ComponentWord(s) && ComponentIdPattern(s)
    ensures ModuleManifest.ComponentKey(s) == Some(s)
  {
    PlainReadsBack(s);
  }

  /** When moduleId and resource normalize to plain words, every id of the
      contract is a component id the manifest accepts as its own key. */
  lemma ContractIdsAreComponentIds(moduleId: string, resource: string)
    requires ComponentWord(NormalizeSegment(moduleId)) && ComponentWord(NormalizeSegment(resource))
    ensures CreateContract(moduleId, resource).Returns?
    ensures var c := CreateContract(moduleId, resource).value;
            forall i :: 0 <= i < |c| ==> ModuleManifest.ComponentKey(c[i].componentId) == Some(c[i].componentId)
  {
    ContractThrows(moduleId, resource);
    ContractIds(moduleId, resource);
    SlotNamesWords();
    var m := NormalizeSegment(moduleId);
    var res := NormalizeSegment(resource);
    JoinDotWord(m, "datatable");
    JoinDotWord(JoinDot(m, "datatable"), res);
    var c := CreateContract(moduleId, resource).value;
    forall i | 0 <= i < |c| ensures ModuleManifest.ComponentKey(c[i].componentId) == Some(c[i].componentId) {
      JoinDotWord(JoinDot(JoinDot(m, "datatable"), res), SlotNames[i]);
      WordIsOwnKey(c[i].componentId);
    }
  }

  /** The manifest's view of a list of pack entries. */
  function AsManifestEntries(entries: seq<PackEntry>): (r: seq<ModuleManifest.TemplateEntry>)
    ensures |r| == |entries|
    ensures forall i :: 0 <= i < |entries| ==> r[i] == ModuleManifest.TemplateEntry(Some(entries[i].componentId))
  {
    seq(|entries|, i requires 0 <= i < |entries| => ModuleManifest.TemplateEntry(Some(entries[i].componentId)))
  }

  /** Entries carrying the ids of a contract whose ids read back as themselves
      and differ pairwise pass the manifest's template pack check. */
  lemma OwnKeysPassManifest(c: seq<ContractSlot>, e: seq<ModuleManifest.TemplateEntry>, kind: string)
    requires |e| == |c|
    requires forall i :: 0 <= i < |c| ==> e[i] == ModuleManifest.TemplateEntry(Some(c[i].componentId))
    requires forall i :: 0 <= i < |c| ==> ModuleManifest.ComponentKey(c[i].componentId) == Some(c[i].componentId)
    requires forall i, j :: 0 <= i < j < |c| ==> c[i].componentId != c[j].componentId
    ensures ModuleManifest.TemplateListErrors(Some(e), kind) == []
  {
    assert forall i :: 0 <= i < |e| ==> ModuleManifest.TemplateKey(e[i]) == Some(c[i].componentId);
    assert ModuleManifest.TemplateEntriesValid(e);
    ModuleManifest.TemplateListErrorsEmptyIff(Some(e), kind);
  }

  /** The manifest entries built from a contract carry its ids, in order. */
  lemma ManifestEntriesCarryIds(c: seq<ContractSlot>, options: EntryOptions)
    ensures var e := AsManifestEntries(CreateEntries(c, options));
            && |e| == |c|
            && forall i :: 0 <= i < |c| ==> e[i] == ModuleManifest.TemplateEntry(Some(c[i].componentId))
  {
    var entries := CreateEntries(c, options);
    assert forall i :: 0 <= i < |c| ==> entries[i].componentId == c[i].componentId;
  }

  /** The entries generated for a contract pass the manifest's template pack
      check, whatever the options, when moduleId and resource normalize to
      plain words. */
  lemma ContractEntriesPassManifest(moduleId: string, resource: string, options: EntryOptions, kind: string)
    requires ComponentWord(NormalizeSegment(moduleId)) && ComponentWord(NormalizeSegment(resource))
    ensures CreateContract(moduleId, resource).Returns?
    ensures var entries := CreateEntries(CreateContract(moduleId, resource).value, options);
            ModuleManifest.TemplateListErrors(Some(AsManifestEntries(entries)), kind) == []
  {
    ContractIdsAreComponentIds(moduleId, resource);
    ContractIdsDistinct(moduleId, resource);
    EntriesOfOwnKeysPass(CreateContract(moduleId, resource).value, options, kind);
  }

  lemma EntriesOfOwnKeysPass(c: seq<ContractSlot>, options: EntryOptions, kind: string)
    requires forall i :: 0 <= i < |c| ==> ModuleManifest.ComponentKey(c[i].componentId) == Some(c[i].componentId)
    requires forall i, j :: 0 <= i < j < |c| ==> c[i].componentId != c[j].componentId
    ensures ModuleManifest.TemplateListErrors(Some(AsManifestEntries(CreateEntries(c, options))), kind) == []
  {
    ManifestEntriesCarryIds(c, options);
    OwnKeysPassManifest(c, AsManifestEntries(CreateEntries(c, options)), kind);
  }

  /** An id with two dots in a row is not a component id for the manifest. */
  lemma AdjacentDotsRejected(id: string, k: nat)
    requires AllComponentChars(id)
    requires k + 1 < |id| && id[k] == '.' && id[k + 1] == '.'
    ensures ModuleManifest.ComponentKey(id) == None
  {
    assert DoubleSeparatorAt(id, k);
    DoubleSeparatorRejected(id, k);
    PlainReadsBack(id);
    ModuleManifest.ComponentKeyRejects(id);
  }

  /** A plain word with a dot appended is still a normal segment. */
  lemma DotEndedNormal(w: string)
    requires ComponentWord(w)
    ensures NormalizeSegment(w + ".") == w + "."
  {
    var m := w + ".";
    assert forall i :: 0 <= i < |w| ==> m[i] == w[i];
    assert IsNormalSegment(m) by {
      forall i | 0 <= i < |m| ensures IsComponentChar(m[i]) {
        if i < |w| { assert m[i] == w[i]; }
      }
      forall i | 0 <= i < |m| - 1 ensures !DoubleDashAt(m, i) {
        if i < |w| - 1 { assert !DoubleSeparatorAt(w, i); }
      }
    }
    NormalizeFixedIff(m);
  }

  lemma BuildOfNormal(m: string, res: string, slot: string)
    requires NormalizeSegment(m) == m && NormalizeSegment(res) == res && NormalizeSegment(slot) == slot
    ensures BuildComponentId(m, res, slot) == ComposeId(m, res, slot)
  {
  }

  /** A segment ending in a dot survives normalization, and the id built from
      it then has two dots in a row, which the manifest validator rejects. */
  lemma TrailingDotIdRejected(w: string, resource: string, slot: string)
    requires ComponentWord(w) && ComponentWord(resource) && ComponentWord(slot)
    ensures NormalizeSegment(w + ".") == w + "."
    ensures BuildComponentId(w + ".", resource, slot).Returns?
    ensures ModuleManifest.ComponentKey(BuildComponentId(w + ".", resource, slot).value) == None
  {
    var m := w + ".";
    DotEndedNormal(w);
    WordIsNormal(resource);
    WordIsNormal(slot);
    BuildOfNormal(m, resource, slot);
    var id := SlotId(m, resource, slot);
    assert id[|w|] == '.' && id[|w| + 1] == '.';
    AdjacentDotsRejected(id, |w|);
  }
}
