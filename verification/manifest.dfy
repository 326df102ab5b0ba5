/**
 * `validateModuleManifest` (dist/modules/manifest.js lines 4-204): the error
 * codes a module manifest produces, in the order the source pushes them.
 * Every list check is the first-occurrence loop of `KeyScan`; the validator
 * is the concatenation of its parts. The main theorem states which manifests
 * produce no error at all, without reference to the loops.
 */
module ModuleManifest {
  import opened Js
  import opened Strings
  import opened ManifestIds
  import opened KeyScan

  // ---------------------------------------------------------------------------
  // The manifest
  // ---------------------------------------------------------------------------

  /** A frontend slot; `handlerIsFunction` is `typeof entry.handler === 'function'`. */
  datatype SlotEntry = SlotEntry(slotId: Option<string>, handlerIsFunction: bool)

  datatype TemplateEntry = TemplateEntry(componentId: Option<string>)

  datatype TemplatePack = TemplatePack(defaults: Option<seq<TemplateEntry>>, overrides: Option<seq<TemplateEntry>>)

  datatype ProviderRoutes = ProviderRoutes(startPath: Option<string>, callbackPath: Option<string>, healthPath: Option<string>)

  datatype AuthProvider = AuthProvider(providerId: Option<string>, kind: Option<string>, flow: Option<string>, routes: ProviderRoutes)

  datatype PaymentRoutes = PaymentRoutes(
    startPath: Option<string>, cancelPath: Option<string>, returnPath: Option<string>, webhookPath: Option<string>)

  /** `supportsOrderTypes` is any value: the source checks that it is an array. */
  datatype PaymentMethod = PaymentMethod(paymentMethodId: Option<string>, supportsOrderTypes: JsValue, routes: PaymentRoutes)

  /** `None` is a property left undefined. */
  datatype Manifest = Manifest(
    moduleId: Option<string>,
    version: Option<string>,
    displayName: Option<string>,
    adminRouteAliases: Option<seq<string>>,
    dashboardRouteAliases: Option<seq<string>>,
    frontendRouteAliases: Option<seq<string>>,
    frontendRouteAccess: Option<string>,
    frontendSlots: Option<seq<SlotEntry>>,
    templatePack: Option<TemplatePack>,
    authProviders: Option<seq<AuthProvider>>,
    paymentMethods: Option<seq<PaymentMethod>>)

  /** The errors of the entries of a list check are empty exactly when every
      key is valid, no key repeats and every entry passes its remaining checks. */
  lemma KeyedListEmptyIff(xss: seq<seq<string>>, keys: seq<Option<string>>, ok: seq<bool>)
    requires |xss| == |keys| == |ok|
    requires forall i :: 0 <= i < |xss| ==> (|xss[i]| == 0 <==> ScanKeys(keys, {})[i].Fresh? && ok[i])
    ensures |Flatten(xss)| == 0 <==> (forall i :: 0 <= i < |keys| ==> keys[i].Some? && ok[i]) && DistinctKeys(keys)
  {
    AllFreshIff(keys);
  }

  /** The same, for a list check with no checks beyond the key. */
  lemma KeyOnlyListEmptyIff(xss: seq<seq<string>>, keys: seq<Option<string>>)
    requires |xss| == |keys|
    requires forall i :: 0 <= i < |xss| ==> (|xss[i]| == 0 <==> ScanKeys(keys, {})[i].Fresh?)
    ensures |Flatten(xss)| == 0 <==> (forall i :: 0 <= i < |keys| ==> keys[i].Some?) && DistinctKeys(keys)
  {
    AllFreshIff(keys);
  }

  // ---------------------------------------------------------------------------
  // Required fields (lines 10-18)
  // ---------------------------------------------------------------------------

  /** `!value || !value.trim()`. */
  predicate Blank(value: Option<string>) {
    value.None? || AllWhitespace(value.value)
  }

  function RequiredErrors(m: Manifest): (r: seq<string>)
    ensures |r| <= 3
    ensures Blank(m.moduleId) <==> "module_id_missing" in r
    ensures Blank(m.version) <==> "module_version_missing" in r
    ensures Blank(m.displayName) <==> "module_display_name_missing" in r
  {
    (if Blank(m.moduleId) then ["module_id_missing"] else [])
    + (if Blank(m.version) then ["module_version_missing"] else [])
    + (if Blank(m.displayName) then ["module_display_name_missing"] else [])
  }

  // ---------------------------------------------------------------------------
  // Route aliases (lines 19-52)
  // ---------------------------------------------------------------------------

  datatype Area = Admin | Dashboard | Frontend

  function AreaName(area: Area): string {
    match area
    case Admin => "admin"
    case Dashboard => "dashboard"
    case Frontend => "frontend"
  }

  function AreaPrefix(area: Area): string {
    match area
    case Admin => "/admin/"
    case Dashboard => "/dashboard/"
    case Frontend => "/"
  }

  /** Contains one of `?`, `#`, `[`, `]`. */
  predicate HasReservedChar(s: string) {
    '?' in s || '#' in s || '[' in s || ']' in s
  }

  /** The trimmed alias lies under the area, is not the bare frontend root and
      carries no query, fragment or bracket. */
  predicate AliasAccepted(area: Area, alias: string) {
    var normalized := Trim(alias);
    && StartsWith(normalized, AreaPrefix(area))
    && !(area == Frontend && normalized == ['/'])
    && !HasReservedChar(normalized)
  }

  /** `pathWithoutTrailingSlash`: every trailing slash dropped from a path
      longer than one character. */
  function WithoutTrailingSlash(normalized: string): (r: string)
    ensures |normalized| > 1 ==> r == StripTrailing(normalized, '/')
  {
    if |normalized| > 1 && normalized[|normalized| - 1] == '/' then StripTrailing(normalized, '/') else normalized
  }

  /** The key an alias is compared under, if it is accepted at all. */
  function AliasKey(area: Area, alias: string): (r: Option<string>)
    ensures r.Some? <==> AliasAccepted(area, alias)
  {
    if AliasAccepted(area, alias) then Some(WithoutTrailingSlash(Trim(alias))) else None
  }

  function AliasKeys(area: Area, aliases: seq<string>): (r: seq<Option<string>>)
    ensures |r| == |aliases|
    ensures forall i :: 0 <= i < |aliases| ==> r[i] == AliasKey(area, aliases[i])
  {
    seq(|aliases|, i requires 0 <= i < |aliases| => AliasKey(area, aliases[i]))
  }

  function AliasInvalidCode(area: Area, alias: string): string {
    "module_" + AreaName(area) + "_route_alias_invalid:" + alias
  }

  function AliasDuplicateCode(area: Area, key: string): string {
    "module_" + AreaName(area) + "_route_alias_duplicate:" + key
  }

  function AliasEntryErrors(area: Area, alias: string, v: Verdict): (r: seq<string>)
    ensures |r| == 0 <==> v.Fresh?
  {
    match v
    case Invalid => [AliasInvalidCode(area, alias)]
    case Duplicate(key) => [AliasDuplicateCode(area, key)]
    case Fresh(_) => []
  }

  function AliasEntriesErrors(area: Area, aliases: seq<string>): (r: seq<seq<string>>)
    ensures |r| == |aliases|
    ensures var vs := ScanKeys(AliasKeys(area, aliases), {});
            forall i :: 0 <= i < |aliases| ==> r[i] == AliasEntryErrors(area, aliases[i], vs[i])
  {
    var vs := ScanKeys(AliasKeys(area, aliases), {});
    seq(|aliases|, i requires 0 <= i < |aliases| => AliasEntryErrors(area, aliases[i], vs[i]))
  }

  /** `validateAliases(aliases, area)`; a missing list checks nothing. */
  function AliasErrors(area: Area, aliases: Option<seq<string>>): seq<string> {
    if aliases.None? then [] else Flatten(AliasEntriesErrors(area, aliases.value))
  }

  /** Every alias is accepted and no two share a key. */
  predicate AliasListValid(area: Area, a: seq<string>) {
    && (forall i :: 0 <= i < |a| ==> AliasAccepted(area, a[i]))
    && (forall i, j :: 0 <= i < j < |a| ==> AliasKey(area, a[i]) != AliasKey(area, a[j]))
  }

  predicate AliasesValid(area: Area, aliases: Option<seq<string>>) {
    aliases.Some? ==> AliasListValid(area, aliases.value)
  }

  lemma AliasErrorsEmptyIff(area: Area, aliases: Option<seq<string>>)
    ensures |AliasErrors(area, aliases)| == 0 <==> AliasesValid(area, aliases)
  {
    if aliases.Some? {
      AliasEntriesEmptyIff(area, aliases.value);
      AliasKeysValid(area, aliases.value);
    }
  }

  lemma AliasEntriesEmptyIff(area: Area, a: seq<string>)
    ensures var keys := AliasKeys(area, a);
            |Flatten(AliasEntriesErrors(area, a))| == 0 <==>
            (forall i :: 0 <= i < |keys| ==> keys[i].Some?) && DistinctKeys(keys)
  {
    var keys := AliasKeys(area, a);
    var xss := AliasEntriesErrors(area, a);
    var vs := ScanKeys(keys, {});
    forall i | 0 <= i < |xss| ensures |xss[i]| == 0 <==> vs[i].Fresh? {
      assert xss[i] == AliasEntryErrors(area, a[i], vs[i]);
    }
    KeyOnlyListEmptyIff(xss, keys);
  }

  lemma AliasKeysValid(area: Area, a: seq<string>)
    ensures var keys := AliasKeys(area, a);
            (forall i :: 0 <= i < |keys| ==> keys[i].Some?) && DistinctKeys(keys) <==> AliasListValid(area, a)
  {
  }

  /** An alias that is not accepted is reported with its raw text. */
  lemma AliasInvalidReported(area: Area, aliases: seq<string>, i: nat)
    requires i < |aliases| && !AliasAccepted(area, aliases[i])
    ensures AliasInvalidCode(area, aliases[i]) in AliasErrors(area, Some(aliases))
  {
    var keys := AliasKeys(area, aliases);
    ScanKeysIsFirstOccurrence(keys, {});
    FlattenContains(AliasEntriesErrors(area, aliases), i, AliasInvalidCode(area, aliases[i]));
  }

  /** A later alias with the key of an earlier one is reported as a duplicate
      of that key. */
  lemma AliasDuplicateReported(area: Area, aliases: seq<string>, j: nat, i: nat, key: string)
    requires j < i < |aliases|
    requires AliasKey(area, aliases[j]) == Some(key) && AliasKey(area, aliases[i]) == Some(key)
    ensures AliasDuplicateCode(area, key) in AliasErrors(area, Some(aliases))
  {
    var keys := AliasKeys(area, aliases);
    ScanKeysIsFirstOccurrence(keys, {});
    assert SeenBefore(keys, i, key) by { assert keys[j] == Some(key); }
    FlattenContains(AliasEntriesErrors(area, aliases), i, AliasDuplicateCode(area, key));
  }

  lemma ReservedCharSnocSlash(x: string)
    ensures HasReservedChar(x + ['/']) <==> HasReservedChar(x)
  {
    assert forall c :: c in x + ['/'] <==> c in x || c == '/';
  }

  /** A trailing slash does not change an accepted alias or its key, so
      `/admin/reports` and `/admin/reports/` collide. */
  lemma TrailingSlashIgnored(area: Area, x: string)
    requires Trimmed(x) && AliasAccepted(area, x)
    ensures AliasAccepted(area, x + ['/'])
    ensures AliasKey(area, x + ['/']) == AliasKey(area, x)
  {
    TrimOfTrimmed(x);
    var y := x + ['/'];
    assert Trimmed(y);
    TrimOfTrimmed(y);
    assert |x| > 1 by {
      if |x| == 1 {
        assert x[..|AreaPrefix(area)|] == AreaPrefix(area);
      }
    }
    assert y[..|AreaPrefix(area)|] == x[..|AreaPrefix(area)|];
    ReservedCharSnocSlash(x);
    assert StripTrailing(y, '/') == StripTrailing(x, '/') by {
      assert y[..|y| - 1] == x;
    }
  }

  // ---------------------------------------------------------------------------
  // Frontend route access (lines 53-58)
  // ---------------------------------------------------------------------------

  predicate AccessValid(access: Option<string>) {
    access.None? || access.value in {"public", "user", "admin"}
  }

  function AccessErrors(access: Option<string>): (r: seq<string>)
    ensures |r| <= 1
    ensures |r| == 0 <==> AccessValid(access)
  {
    if AccessValid(access) then [] else ["module_frontend_route_access_invalid"]
  }

  // ---------------------------------------------------------------------------
  // Frontend slots (lines 59-77)
  // ---------------------------------------------------------------------------

  /** A component id after `trim().toLowerCase()`, kept only when non-empty
      and matching the component id pattern. */
  function ComponentKey(raw: string): (r: Option<string>)
    ensures r.Some? ==> ComponentIdPattern(r.value) && r.value == ToLower(Trim(raw))
  {
    var id := ToLower(Trim(raw));
    if |id| > 0 && ComponentIdPattern(id) then Some(id) else None
  }

  /** A raw id whose trimmed lower-case form misses the pattern has no key. */
  lemma ComponentKeyRejects(raw: string)
    requires !ComponentIdPattern(ToLower(Trim(raw)))
    ensures ComponentKey(raw) == None
  {
  }

  /** `String(entry?.slotId ?? '')`: a missing id reads as the empty string. */
  function SlotKey(entry: SlotEntry): Option<string> {
    ComponentKey(entry.slotId.GetOr(""))
  }

  function SlotKeys(slots: seq<SlotEntry>): (r: seq<Option<string>>)
    ensures |r| == |slots|
    ensures forall i :: 0 <= i < |slots| ==> r[i] == SlotKey(slots[i])
  {
    seq(|slots|, i requires 0 <= i < |slots| => SlotKey(slots[i]))
  }

  function SlotHandlerCode(index: nat): string {
    "module_frontend_slot_handler_invalid:" + NatToString(index)
  }

  function SlotEntryErrors(entry: SlotEntry, index: nat, v: Verdict): (r: seq<string>)
    ensures |r| <= 1
    ensures |r| == 0 <==> v.Fresh? && entry.handlerIsFunction
  {
    match v
    case Invalid => ["module_frontend_slot_id_invalid:" + NatToString(index)]
    case Duplicate(key) => ["module_frontend_slot_duplicate:" + key]
    case Fresh(_) => if entry.handlerIsFunction then [] else [SlotHandlerCode(index)]
  }

  function SlotEntriesErrors(slots: seq<SlotEntry>): (r: seq<seq<string>>)
    ensures |r| == |slots|
    ensures var vs := ScanKeys(SlotKeys(slots), {});
            forall i :: 0 <= i < |slots| ==> r[i] == SlotEntryErrors(slots[i], i, vs[i])
  {
    var vs := ScanKeys(SlotKeys(slots), {});
    seq(|slots|, i requires 0 <= i < |slots| => SlotEntryErrors(slots[i], i, vs[i]))
  }

  function SlotErrors(slots: Option<seq<SlotEntry>>): seq<string> {
    if slots.None? then [] else Flatten(SlotEntriesErrors(slots.value))
  }

  /** Every slot has a valid id and a function handler, and no id repeats. */
  predicate SlotListValid(s: seq<SlotEntry>) {
    && (forall i :: 0 <= i < |s| ==> SlotKey(s[i]).Some? && s[i].handlerIsFunction)
    && (forall i, j :: 0 <= i < j < |s| ==> SlotKey(s[i]) != SlotKey(s[j]))
  }

  predicate SlotsValid(slots: Option<seq<SlotEntry>>) {
    slots.Some? ==> SlotListValid(slots.value)
  }

  lemma SlotErrorsEmptyIff(slots: Option<seq<SlotEntry>>)
    ensures |SlotErrors(slots)| == 0 <==> SlotsValid(slots)
  {
    if slots.Some? {
      var s := slots.value;
      var ok := seq(|s|, i requires 0 <= i < |s| => s[i].handlerIsFunction);
      SlotEntriesEmptyIff(s, ok);
      SlotKeysValid(s, ok);
    }
  }

  lemma SlotEntriesEmptyIff(s: seq<SlotEntry>, ok: seq<bool>)
    requires |ok| == |s| && forall i :: 0 <= i < |s| ==> ok[i] == s[i].handlerIsFunction
    ensures var keys := SlotKeys(s);
            |Flatten(SlotEntriesErrors(s))| == 0 <==>
            (forall i :: 0 <= i < |keys| ==> keys[i].Some? && ok[i]) && DistinctKeys(keys)
  {
    var keys := SlotKeys(s);
    var xss := SlotEntriesErrors(s);
    var vs := ScanKeys(keys, {});
    forall i | 0 <= i < |xss| ensures |xss[i]| == 0 <==> vs[i].Fresh? && ok[i] {
      assert xss[i] == SlotEntryErrors(s[i], i, vs[i]);
    }
    KeyedListEmptyIff(xss, keys, ok);
  }

  lemma SlotKeysValid(s: seq<SlotEntry>, ok: seq<bool>)
    requires |ok| == |s| && forall i :: 0 <= i < |s| ==> ok[i] == s[i].handlerIsFunction
    ensures var keys := SlotKeys(s);
            (forall i :: 0 <= i < |keys| ==> keys[i].Some? && ok[i]) && DistinctKeys(keys) <==> SlotListValid(s)
  {
  }

  /** The first slot with a given valid id has its handler checked. */
  lemma SlotHandlerReported(slots: seq<SlotEntry>, i: nat)
    requires i < |slots| && SlotKey(slots[i]).Some? && !slots[i].handlerIsFunction
    requires forall j :: 0 <= j < i ==> SlotKey(slots[j]) != SlotKey(slots[i])
    ensures SlotHandlerCode(i) in SlotErrors(Some(slots))
  {
    var keys := SlotKeys(slots);
    ScanKeysIsFirstOccurrence(keys, {});
    assert !SeenBefore(keys, i, SlotKey(slots[i]).value);
    FlattenContains(SlotEntriesErrors(slots), i, SlotHandlerCode(i));
  }

  /** An entry rejected on its id is not checked further: its handler does not
      change the errors. */
  lemma RejectedSlotSkipsHandler(slots: seq<SlotEntry>, i: nat, handlerIsFunction: bool)
    requires i < |slots|
    requires !ScanKeys(SlotKeys(slots), {})[i].Fresh?
    ensures SlotErrors(Some(slots[i := slots[i].(handlerIsFunction := handlerIsFunction)])) == SlotErrors(Some(slots))
  {
    var slots' := slots[i := slots[i].(handlerIsFunction := handlerIsFunction)];
    assert SlotKeys(slots') == SlotKeys(slots);
    assert SlotEntriesErrors(slots') == SlotEntriesErrors(slots);
  }

  // ---------------------------------------------------------------------------
  // Template pack (lines 78-100)
  // ---------------------------------------------------------------------------

  /** `entry?.componentId?.trim().toLowerCase()`: a missing id is invalid. */
  function TemplateKey(entry: TemplateEntry): Option<string> {
    if entry.componentId.None? then None else ComponentKey(entry.componentId.value)
  }

  function TemplateKeys(entries: seq<TemplateEntry>): (r: seq<Option<string>>)
    ensures |r| == |entries|
    ensures forall i :: 0 <= i < |entries| ==> r[i] == TemplateKey(entries[i])
  {
    seq(|entries|, i requires 0 <= i < |entries| => TemplateKey(entries[i]))
  }

  function TemplateEntryErrors(kind: string, index: nat, v: Verdict): (r: seq<string>)
    ensures |r| == 0 <==> v.Fresh?
  {
    match v
    case Invalid => ["module_template_pack_" + kind + "_component_invalid:" + NatToString(index)]
    case Duplicate(key) => ["module_template_pack_" + kind + "_component_duplicate:" + key]
    case Fresh(_) => []
  }

  function TemplateEntriesErrors(entries: seq<TemplateEntry>, kind: string): (r: seq<seq<string>>)
    ensures |r| == |entries|
    ensures var vs := ScanKeys(TemplateKeys(entries), {});
            forall i :: 0 <= i < |entries| ==> r[i] == TemplateEntryErrors(kind, i, vs[i])
  {
    var vs := ScanKeys(TemplateKeys(entries), {});
    seq(|entries|, i requires 0 <= i < |entries| => TemplateEntryErrors(kind, i, vs[i]))
  }

  /** `validateTemplateEntries(entries, kind)`. */
  function TemplateListErrors(entries: Option<seq<TemplateEntry>>, kind: string): seq<string> {
    if entries.None? then [] else Flatten(TemplateEntriesErrors(entries.value, kind))
  }

  /** Defaults first, then overrides, each with its own `seen` set. */
  function TemplateErrors(pack: Option<TemplatePack>): seq<string> {
    if pack.None? then []
    else TemplateListErrors(pack.value.defaults, "defaults") + TemplateListErrors(pack.value.overrides, "overrides")
  }

  /** Every entry has a valid component id and no id repeats. */
  predicate TemplateEntriesValid(e: seq<TemplateEntry>) {
    && (forall i :: 0 <= i < |e| ==> TemplateKey(e[i]).Some?)
    && (forall i, j :: 0 <= i < j < |e| ==> TemplateKey(e[i]) != TemplateKey(e[j]))
  }

  predicate TemplateListValid(entries: Option<seq<TemplateEntry>>) {
    entries.Some? ==> TemplateEntriesValid(entries.value)
  }

  predicate TemplatesValid(pack: Option<TemplatePack>) {
    pack.None? || (TemplateListValid(pack.value.defaults) && TemplateListValid(pack.value.overrides))
  }

  lemma TemplateListErrorsEmptyIff(entries: Option<seq<TemplateEntry>>, kind: string)
    ensures |TemplateListErrors(entries, kind)| == 0 <==> TemplateListValid(entries)
  {
    if entries.Some? {
      TemplateEntriesEmptyIff(entries.value, kind);
      TemplateKeysValid(entries.value);
    }
  }

  lemma TemplateEntriesEmptyIff(e: seq<TemplateEntry>, kind: string)
    ensures var keys := TemplateKeys(e);
            |Flatten(TemplateEntriesErrors(e, kind))| == 0 <==>
            (forall i :: 0 <= i < |keys| ==> keys[i].Some?) && DistinctKeys(keys)
  {
    var keys := TemplateKeys(e);
    var xss := TemplateEntriesErrors(e, kind);
    var vs := ScanKeys(keys, {});
    forall i | 0 <= i < |xss| ensures |xss[i]| == 0 <==> vs[i].Fresh? {
      assert xss[i] == TemplateEntryErrors(kind, i, vs[i]);
    }
    KeyOnlyListEmptyIff(xss, keys);
  }

  lemma TemplateKeysValid(e: seq<TemplateEntry>)
    ensures var keys := TemplateKeys(e);
            (forall i :: 0 <= i < |keys| ==> keys[i].Some?) && DistinctKeys(keys) <==> TemplateEntriesValid(e)
  {
  }

  lemma TemplateErrorsEmptyIff(pack: Option<TemplatePack>)
    ensures |TemplateErrors(pack)| == 0 <==> TemplatesValid(pack)
  {
    if pack.Some? {
      TemplateListErrorsEmptyIff(pack.value.defaults, "defaults");
      TemplateListErrorsEmptyIff(pack.value.overrides, "overrides");
    }
  }

  /** The same component id may appear once among the defaults and once among
      the overrides: the two lists are checked separately. */
  lemma DefaultAndOverrideMayShareId(id: string)
    requires ComponentKey(id).Some?
    ensures TemplateErrors(Some(TemplatePack(Some([TemplateEntry(Some(id))]), Some([TemplateEntry(Some(id))])))) == []
  {
    var list := [TemplateEntry(Some(id))];
    var pack := Some(TemplatePack(Some(list), Some(list)));
    OneTemplateValid(list);
    assert TemplatesValid(pack);
    TemplateErrorsEmptyIff(pack);
  }

  /** A list of one entry with a valid component id is valid. */
  lemma OneTemplateValid(e: seq<TemplateEntry>)
    requires |e| == 1 && TemplateKey(e[0]).Some?
    ensures TemplateEntriesValid(e)
  {
    OneKeyValid(TemplateKeys(e));
    TemplateKeysValid(e);
  }

  lemma OneKeyValid(keys: seq<Option<string>>)
    requires |keys| == 1 && keys[0].Some?
    ensures forall i :: 0 <= i < |keys| ==> keys[i].Some?
    ensures DistinctKeys(keys)
  {
  }

  // ---------------------------------------------------------------------------
  // Provider and payment method ids (lines 105-109 and 155-159)
  // ---------------------------------------------------------------------------

  /** `String(id ?? '').trim()`, kept only when it is already lower case and
      matches the provider id pattern. */
  function IdKey(id: Option<string>): (r: Option<string>)
    ensures r.Some? ==> ProviderIdPattern(r.value) && r.value == Trim(id.GetOr(""))
  {
    var raw := Trim(id.GetOr(""));
    var lower := ToLower(raw);
    if |lower| == 0 || raw != lower || !ProviderIdPattern(lower) then None else Some(lower)
  }

  /** An id is never lower-cased into validity: one upper-case letter rejects it. */
  lemma UpperCaseIdRejected(id: string, k: nat)
    requires k < |Trim(id)| && 'A' <= Trim(id)[k] <= 'Z'
    ensures IdKey(Some(id)) == None
  {
    var raw := Trim(id);
    assert ToLower(raw)[k] != raw[k];
  }

  /** A path is either absent or, trimmed, a non-empty path starting with `/`
      without query, fragment or brackets. */
  predicate PathValid(value: Option<string>) {
    value.None? ||
    var normalized := Trim(value.value);
    |normalized| > 0 && StartsWith(normalized, ['/']) && !HasReservedChar(normalized)
  }

  function PathErrors(value: Option<string>, code: string): (r: seq<string>)
    ensures |r| == 0 <==> PathValid(value)
    ensures |r| > 0 ==> r == [code]
  {
    if PathValid(value) then [] else [code]
  }

  // ---------------------------------------------------------------------------
  // Auth providers (lines 101-150)
  // ---------------------------------------------------------------------------

  predicate KindValid(kind: Option<string>) {
    kind.Some? && kind.value in {"passkey", "oauth2", "oidc", "saml", "local", "custom"}
  }

  predicate FlowValid(flow: Option<string>) {
    flow.None? || flow.value in {"login", "link", "both"}
  }

  /** The checks a provider with a fresh id goes on to. */
  predicate ProviderBodyValid(p: AuthProvider) {
    && KindValid(p.kind)
    && FlowValid(p.flow)
    && PathValid(p.routes.startPath)
    && PathValid(p.routes.callbackPath)
    && PathValid(p.routes.healthPath)
  }

  function ProviderKeys(providers: seq<AuthProvider>): (r: seq<Option<string>>)
    ensures |r| == |providers|
    ensures forall i :: 0 <= i < |providers| ==> r[i] == IdKey(providers[i].providerId)
  {
    seq(|providers|, i requires 0 <= i < |providers| => IdKey(providers[i].providerId))
  }

  function ProviderBodyErrors(p: AuthProvider, index: nat): (r: seq<string>)
    ensures |r| == 0 <==> ProviderBodyValid(p)
  {
    var at := NatToString(index);
    (if KindValid(p.kind) then [] else ["module_auth_provider_kind_invalid:" + at])
    + (if FlowValid(p.flow) then [] else ["module_auth_provider_flow_invalid:" + at])
    + PathErrors(p.routes.startPath, "module_auth_provider_start_path_invalid:" + at)
    + PathErrors(p.routes.callbackPath, "module_auth_provider_callback_path_invalid:" + at)
    + PathErrors(p.routes.healthPath, "module_auth_provider_health_path_invalid:" + at)
  }

  function ProviderEntryErrors(p: AuthProvider, index: nat, v: Verdict): (r: seq<string>)
    ensures |r| == 0 <==> v.Fresh? && ProviderBodyValid(p)
  {
    match v
    case Invalid => ["module_auth_provider_id_invalid:" + NatToString(index)]
    case Duplicate(key) => ["module_auth_provider_duplicate:" + key]
    case Fresh(_) => ProviderBodyErrors(p, index)
  }

  function ProviderEntriesErrors(providers: seq<AuthProvider>): (r: seq<seq<string>>)
    ensures |r| == |providers|
    ensures var vs := ScanKeys(ProviderKeys(providers), {});
            forall i :: 0 <= i < |providers| ==> r[i] == ProviderEntryErrors(providers[i], i, vs[i])
  {
    var vs := ScanKeys(ProviderKeys(providers), {});
    seq(|providers|, i requires 0 <= i < |providers| => ProviderEntryErrors(providers[i], i, vs[i]))
  }

  function ProviderErrors(providers: Option<seq<AuthProvider>>): seq<string> {
    if providers.None? then [] else Flatten(ProviderEntriesErrors(providers.value))
  }

  /** Every provider has a valid id and passes its remaining checks, and no id
      repeats. */
  predicate ProviderListValid(p: seq<AuthProvider>) {
    && (forall i :: 0 <= i < |p| ==> IdKey(p[i].providerId).Some? && ProviderBodyValid(p[i]))
    && (forall i, j :: 0 <= i < j < |p| ==> IdKey(p[i].providerId) != IdKey(p[j].providerId))
  }

  predicate ProvidersValid(providers: Option<seq<AuthProvider>>) {
    providers.Some? ==> ProviderListValid(providers.value)
  }

  lemma ProviderErrorsEmptyIff(providers: Option<seq<AuthProvider>>)
    ensures |ProviderErrors(providers)| == 0 <==> ProvidersValid(providers)
  {
    if providers.Some? {
      var p := providers.value;
      var ok := seq(|p|, i requires 0 <= i < |p| => ProviderBodyValid(p[i]));
      ProviderEntriesEmptyIff(p, ok);
      ProviderKeysValid(p, ok);
    }
  }

  lemma ProviderEntriesEmptyIff(p: seq<AuthProvider>, ok: seq<bool>)
    requires |ok| == |p| && forall i :: 0 <= i < |p| ==> ok[i] == ProviderBodyValid(p[i])
    ensures var keys := ProviderKeys(p);
            |Flatten(ProviderEntriesErrors(p))| == 0 <==>
            (forall i :: 0 <= i < |keys| ==> keys[i].Some? && ok[i]) && DistinctKeys(keys)
  {
    var keys := ProviderKeys(p);
    var xss := ProviderEntriesErrors(p);
    var vs := ScanKeys(keys, {});
    forall i | 0 <= i < |xss| ensures |xss[i]| == 0 <==> vs[i].Fresh? && ok[i] {
      assert xss[i] == ProviderEntryErrors(p[i], i, vs[i]);
    }
    KeyedListEmptyIff(xss, keys, ok);
  }

  lemma ProviderKeysValid(p: seq<AuthProvider>, ok: seq<bool>)
    requires |ok| == |p| && forall i :: 0 <= i < |p| ==> ok[i] == ProviderBodyValid(p[i])
    ensures var keys := ProviderKeys(p);
            (forall i :: 0 <= i < |keys| ==> keys[i].Some? && ok[i]) && DistinctKeys(keys) <==> ProviderListValid(p)
  {
  }

  // ---------------------------------------------------------------------------
  // Payment methods (lines 151-202)
  // ---------------------------------------------------------------------------

  function DefaultOrderTypes(): JsValue {
    JArray([JStr("subscription"), JStr("one_time")])
  }

  predicate IsOrderType(v: JsValue) {
    v == JStr("subscription") || v == JStr("one_time")
  }

  /** The order types, defaulted when nullish, form a non-empty array of known
      kinds. */
  /** `supportsOrderTypes ?? ['subscription', 'one_time']`. */
  function OrderTypesOf(supported: JsValue): JsValue {
    if Nullish(supported) then DefaultOrderTypes() else supported
  }

  predicate OrderTypesValid(supported: JsValue) {
    var orderTypes := OrderTypesOf(supported);
    orderTypes.JArray? && |orderTypes.items| > 0 && forall i :: 0 <= i < |orderTypes.items| ==> IsOrderType(orderTypes.items[i])
  }

  /** The inner loop: the first unknown order type reports once and breaks. */
  function UnknownOrderType(items: seq<JsValue>, code: string): (r: seq<string>)
    ensures |r| <= 1
    ensures |r| == 0 <==> forall i :: 0 <= i < |items| ==> IsOrderType(items[i])
    ensures |r| > 0 ==> r == [code]
  {
    if |items| == 0 then []
    else if !IsOrderType(items[0]) then [code]
    else
      var r := UnknownOrderType(items[1..], code);
      assert forall i :: 0 < i < |items| ==> items[i] == items[1..][i - 1];
      r
  }

  /** Exactly one error for a method whose order types are not valid, none
      otherwise. */
  function OrderTypeErrors(supported: JsValue, index: nat): (r: seq<string>)
    ensures |r| <= 1
    ensures |r| == 0 <==> OrderTypesValid(supported)
  {
    var code := "module_payment_method_order_types_invalid:" + NatToString(index);
    var orderTypes := OrderTypesOf(supported);
    if !orderTypes.JArray? || |orderTypes.items| == 0 then [code]
    else UnknownOrderType(orderTypes.items, code)
  }

  /** Leaving the order types out accepts both kinds. */
  lemma MissingOrderTypesDefault(index: nat)
    ensures OrderTypeErrors(JUndefined, index) == []
    ensures OrderTypeErrors(JNull, index) == []
  {
    var d := DefaultOrderTypes();
    assert IsOrderType(d.items[0]) && IsOrderType(d.items[1]);
    assert forall i :: 0 <= i < |d.items| ==> IsOrderType(d.items[i]);
  }

  predicate PaymentBodyValid(p: PaymentMethod) {
    && OrderTypesValid(p.supportsOrderTypes)
    && PathValid(p.routes.startPath)
    && PathValid(p.routes.cancelPath)
    && PathValid(p.routes.returnPath)
    && PathValid(p.routes.webhookPath)
  }

  function PaymentKeys(methods: seq<PaymentMethod>): (r: seq<Option<string>>)
    ensures |r| == |methods|
    ensures forall i :: 0 <= i < |methods| ==> r[i] == IdKey(methods[i].paymentMethodId)
  {
    seq(|methods|, i requires 0 <= i < |methods| => IdKey(methods[i].paymentMethodId))
  }

  function PaymentBodyErrors(p: PaymentMethod, index: nat): (r: seq<string>)
    ensures |r| == 0 <==> PaymentBodyValid(p)
  {
    var at := NatToString(index);
    OrderTypeErrors(p.supportsOrderTypes, index)
    + PathErrors(p.routes.startPath, "module_payment_method_start_path_invalid:" + at)
    + PathErrors(p.routes.cancelPath, "module_payment_method_cancel_path_invalid:" + at)
    + PathErrors(p.routes.returnPath, "module_payment_method_return_path_invalid:" + at)
    + PathErrors(p.routes.webhookPath, "module_payment_method_webhook_path_invalid:" + at)
  }

  function PaymentEntryErrors(p: PaymentMethod, index: nat, v: Verdict): (r: seq<string>)
    ensures |r| == 0 <==> v.Fresh? && PaymentBodyValid(p)
  {
    match v
    case Invalid => ["module_payment_method_id_invalid:" + NatToString(index)]
    case Duplicate(key) => ["module_payment_method_duplicate:" + key]
    case Fresh(_) => PaymentBodyErrors(p, index)
  }

  function PaymentEntriesErrors(methods: seq<PaymentMethod>): (r: seq<seq<string>>)
    ensures |r| == |methods|
    ensures var vs := ScanKeys(PaymentKeys(methods), {});
            forall i :: 0 <= i < |methods| ==> r[i] == PaymentEntryErrors(methods[i], i, vs[i])
  {
    var vs := ScanKeys(PaymentKeys(methods), {});
    seq(|methods|, i requires 0 <= i < |methods| => PaymentEntryErrors(methods[i], i, vs[i]))
  }

  function PaymentErrors(methods: Option<seq<PaymentMethod>>): seq<string> {
    if methods.None? then [] else Flatten(PaymentEntriesErrors(methods.value))
  }

  /** Every method has a valid id and passes its remaining checks, and no id
      repeats. */
  predicate PaymentListValid(p: seq<PaymentMethod>) {
    && (forall i :: 0 <= i < |p| ==> IdKey(p[i].paymentMethodId).Some? && PaymentBodyValid(p[i]))
    && (forall i, j :: 0 <= i < j < |p| ==> IdKey(p[i].paymentMethodId) != IdKey(p[j].paymentMethodId))
  }

  predicate PaymentsValid(methods: Option<seq<PaymentMethod>>) {
    methods.Some? ==> PaymentListValid(methods.value)
  }

  lemma PaymentErrorsEmptyIff(methods: Option<seq<PaymentMethod>>)
    ensures |PaymentErrors(methods)| == 0 <==> PaymentsValid(methods)
  {
    if methods.Some? {
      PaymentEntriesEmptyIff(methods.value);
      PaymentKeysValid(methods.value);
    }
  }

  /** Every key is present with a valid body, and no key repeats. */
  predicate PaymentKeysOk(p: seq<PaymentMethod>) {
    var keys := PaymentKeys(p);
    (forall i :: 0 <= i < |keys| ==> keys[i].Some? && PaymentBodyValid(p[i])) && DistinctKeys(keys)
  }

  lemma PaymentEntriesEmptyIff(p: seq<PaymentMethod>)
    ensures |Flatten(PaymentEntriesErrors(p))| == 0 <==> PaymentKeysOk(p)
  {
    var ok := seq(|p|, i requires 0 <= i < |p| => PaymentBodyValid(p[i]));
    PaymentVerdicts(p, ok);
    KeyedListEmptyIff(PaymentEntriesErrors(p), PaymentKeys(p), ok);
    OkIsBodies(p, ok, PaymentKeys(p));
  }

  lemma PaymentVerdicts(p: seq<PaymentMethod>, ok: seq<bool>)
    requires |ok| == |p| && forall i :: 0 <= i < |p| ==> ok[i] == PaymentBodyValid(p[i])
    ensures var xss := PaymentEntriesErrors(p);
            var vs := ScanKeys(PaymentKeys(p), {});
            forall i :: 0 <= i < |xss| ==> (|xss[i]| == 0 <==> vs[i].Fresh? && ok[i])
  {
    var xss := PaymentEntriesErrors(p);
    var vs := ScanKeys(PaymentKeys(p), {});
    forall i | 0 <= i < |xss| ensures |xss[i]| == 0 <==> vs[i].Fresh? && ok[i] {
      assert xss[i] == PaymentEntryErrors(p[i], i, vs[i]);
    }
  }

  lemma OkIsBodies(p: seq<PaymentMethod>, ok: seq<bool>, keys: seq<Option<string>>)
    requires |ok| == |p| == |keys| && forall i :: 0 <= i < |p| ==> ok[i] == PaymentBodyValid(p[i])
    ensures (forall i :: 0 <= i < |keys| ==> keys[i].Some? && ok[i]) <==>
            (forall i :: 0 <= i < |keys| ==> keys[i].Some? && PaymentBodyValid(p[i]))
  {
  }

  lemma PaymentKeysValid(p: seq<PaymentMethod>)
    ensures PaymentKeysOk(p) <==> PaymentListValid(p)
  {
  }

  // ---------------------------------------------------------------------------
  // The whole manifest (lines 4-204)
  // ---------------------------------------------------------------------------

  /** `validateModuleManifest(manifest)`: every error, in the order pushed. */
  function Validate(m: Manifest): (r: seq<string>)
    ensures Blank(m.moduleId) ==> |r| > 0 && r[0] == "module_id_missing"
    ensures Blank(m.version) ==> "module_version_missing" in r
    ensures Blank(m.displayName) ==> "module_display_name_missing" in r
  {
    RequiredErrors(m)
    + AliasErrors(Admin, m.adminRouteAliases)
    + AliasErrors(Dashboard, m.dashboardRouteAliases)
    + AliasErrors(Frontend, m.frontendRouteAliases)
    + AccessErrors(m.frontendRouteAccess)
    + SlotErrors(m.frontendSlots)
    + TemplateErrors(m.templatePack)
    + ProviderErrors(m.authProviders)
    + PaymentErrors(m.paymentMethods)
  }

  /** A manifest the validator accepts, described part by part. */
  predicate ManifestValid(m: Manifest) {
    && !Blank(m.moduleId) && !Blank(m.version) && !Blank(m.displayName)
    && AliasesValid(Admin, m.adminRouteAliases)
    && AliasesValid(Dashboard, m.dashboardRouteAliases)
    && AliasesValid(Frontend, m.frontendRouteAliases)
    && AccessValid(m.frontendRouteAccess)
    && SlotsValid(m.frontendSlots)
    && TemplatesValid(m.templatePack)
    && ProvidersValid(m.authProviders)
    && PaymentsValid(m.paymentMethods)
  }

  /** The validator returns no error exactly for the valid manifests. */
  lemma ValidateEmptyIff(m: Manifest)
    ensures Validate(m) == [] <==> ManifestValid(m)
  {
    assert |RequiredErrors(m)| == 0 <==> !Blank(m.moduleId) && !Blank(m.version) && !Blank(m.displayName);
    AliasErrorsEmptyIff(Admin, m.adminRouteAliases);
    AliasErrorsEmptyIff(Dashboard, m.dashboardRouteAliases);
    AliasErrorsEmptyIff(Frontend, m.frontendRouteAliases);
    SlotErrorsEmptyIff(m.frontendSlots);
    TemplateErrorsEmptyIff(m.templatePack);
    ProviderErrorsEmptyIff(m.authProviders);
    PaymentErrorsEmptyIff(m.paymentMethods);
  }

  /** A blank module id is the first error reported. */
  lemma MissingModuleIdFirst(m: Manifest)
    requires Blank(m.moduleId)
    ensures |Validate(m)| > 0 && Validate(m)[0] == "module_id_missing"
  {
  }
}
