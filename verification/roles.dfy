/**
 * Role handling shared by the API and page routers (dist/server.js
 * `normalizeRoleValues`, `defaultReadRoles`, `getRoleSet`, `hasRequiredRole`).
 * Roles compare after trimming and ASCII lower-casing; blank entries and
 * non-strings never name a role.
 */
module Roles {
  import opened Js
  import opened Strings

  /** One entry of a role list as `normalizeRoleValues` reads it. */
  function NormalizeRole(v: JsValue): string {
    ToLower(ToTrimmedString(v))
  }

  /** `values.map(normalize)`: each entry in its normal form, in order. */
  function NormalizedEntries(values: seq<JsValue>): (r: seq<string>)
    ensures |r| == |values|
    ensures forall i :: 0 <= i < |values| ==> r[i] == NormalizeRole(values[i])
  {
    seq(|values|, i requires 0 <= i < |values| => NormalizeRole(values[i]))
  }

  /** Some entry of `values` normalises to `role`. */
  predicate Names(values: seq<JsValue>, role: string) {
    role in NormalizedEntries(values)
  }

  /** `Names` is "some index holds an entry normalising to the role". */
  lemma NamesIff(values: seq<JsValue>, role: string)
    ensures Names(values, role) <==> exists i :: 0 <= i < |values| && NormalizeRole(values[i]) == role
  {
    var n := NormalizedEntries(values);
    if role in n {
      var i :| 0 <= i < |n| && n[i] == role;
      assert NormalizeRole(values[i]) == role;
    }
  }

  /** A normalised role: non-blank, trimmed, no upper-case ASCII letter. */
  predicate CanonicalRole(role: string) {
    role != "" && Trimmed(role) && HasNoUpper(role)
  }

  /** `normalizeRoleValues`: the set of non-blank normalised entries. */
  function NormalizeRoleValues(values: seq<JsValue>): (r: set<string>)
    ensures forall role :: role in r <==> role != "" && Names(values, role)
  {
    set role | role in NormalizedEntries(values) && role != ""
  }

  /** Every normalised role is canonical. */
  lemma RolesAreCanonical(values: seq<JsValue>)
    ensures forall role :: role in NormalizeRoleValues(values) ==> CanonicalRole(role)
  {
    var n := NormalizedEntries(values);
    forall role | role in NormalizeRoleValues(values) ensures CanonicalRole(role) {
      var i :| 0 <= i < |n| && n[i] == role;
      NormalizedRoleCanonical(values[i]);
    }
  }

  /** A non-blank normalised entry is a canonical role. */
  lemma NormalizedRoleCanonical(v: JsValue)
    ensures NormalizeRole(v) != "" ==> CanonicalRole(NormalizeRole(v))
  {
    ToLowerProperties(ToTrimmedString(v));
  }

  /** A one-entry list naming a non-blank role is exactly that role. */
  lemma SingleRole(v: JsValue, role: string)
    requires NormalizeRole(v) == role && role != ""
    ensures NormalizeRoleValues([v]) == {role}
  {
    assert NormalizedEntries([v]) == [role];
  }

  lemma NormalizeCanonicalRole(s: string)
    requires Trimmed(s) && HasNoUpper(s)
    ensures NormalizeRole(JStr(s)) == s
  {
    TrimOfTrimmed(s);
    LowerOfNoUpper(s);
  }

  lemma NormalizeUpperRole(w1: string, s: string, w2: string)
    requires AllWhitespace(w1) && AllWhitespace(w2) && CanonicalRole(s)
    ensures NormalizeRole(JStr(w1 + ToUpper(s) + w2)) == s
  {
    assert Trimmed(ToUpper(s)) by { ToUpperProperties(s); }
    TrimAroundTrimmed(w1, ToUpper(s), w2);
    LowerOfUpper(s);
  }

  lemma LowerOfUpper(s: string)
    requires HasNoUpper(s)
    ensures ToLower(ToUpper(s)) == s
  {
  }

  /** A role written with any surrounding whitespace or letter case names its normal form. */
  lemma RoleIgnoresCaseAndSpace(w1: string, s: string, w2: string)
    requires AllWhitespace(w1) && AllWhitespace(w2) && CanonicalRole(s)
    ensures NormalizeRoleValues([JStr(w1 + ToUpper(s) + w2)]) == {s}
  {
    NormalizeUpperRole(w1, s, w2);
    SingleRole(JStr(w1 + ToUpper(s) + w2), s);
  }

  /** `DEFAULT_ADMIN_ROLES`. */
  const DefaultAdminRoles: seq<JsValue> := [JStr("admin")]

  /** The admin role set of a router; `adminRoles` left out means the default. */
  function AdminRoleSet(adminRoles: Option<seq<JsValue>>): set<string> {
    NormalizeRoleValues(adminRoles.GetOr(DefaultAdminRoles))
  }

  lemma DefaultAdminRoleSet()
    ensures AdminRoleSet(None) == {"admin"}
  {
    NormalizeCanonicalRole("admin");
    SingleRole(JStr("admin"), "admin");
  }

  /** The string entries of an array, in order (`.filter(entry => typeof entry === 'string')`). */
  function StringEntries(items: seq<JsValue>): (r: seq<JsValue>)
    ensures forall i :: 0 <= i < |r| ==> r[i].JStr?
    ensures forall v :: v in r <==> v in items && v.JStr?
    decreases |items|
  {
    if |items| == 0 then []
    else (if items[0].JStr? then [items[0]] else []) + StringEntries(items[1..])
  }

  /** `defaultReadRoles`: the string `role` field and the string entries of the
      `roles` array of an object user; nothing for any other user. */
  function DefaultReadRoles(user: JsValue): (r: seq<JsValue>)
    ensures forall i :: 0 <= i < |r| ==> r[i].JStr?
    ensures forall s :: JStr(s) in r <==>
              Truthy(user) && IsObjectLike(user) &&
              (Get(user, "role") == JStr(s) ||
               (Get(user, "roles").JArray? && JStr(s) in Get(user, "roles").items))
  {
    if !Truthy(user) || !IsObjectLike(user) then []
    else
      var role := Get(user, "role");
      var roles := Get(user, "roles");
      (if role.JStr? then [role] else []) + (if roles.JArray? then StringEntries(roles.items) else [])
  }

  /** `getRoleSet`: the host's `readRoles` (or the default reader); an array is
      read entry by entry, a lone string is one role, anything else is none. */
  function GetRoleSet(user: JsValue, readRoles: Option<JsValue -> JsValue>): (r: set<string>)
    ensures forall role :: role in r ==> CanonicalRole(role)
    ensures readRoles.None? ==> r == NormalizeRoleValues(DefaultReadRoles(user))
    ensures readRoles.Some? && readRoles.value(user).JArray? ==>
              r == NormalizeRoleValues(readRoles.value(user).items)
    ensures readRoles.Some? && readRoles.value(user).JStr? ==>
              r == NormalizeRoleValues([readRoles.value(user)])
    ensures readRoles.Some? && !readRoles.value(user).JArray? && !readRoles.value(user).JStr? ==> r == {}
  {
    var roleValues := if readRoles.Some? then readRoles.value(user) else JArray(DefaultReadRoles(user));
    var values := if roleValues.JArray? then roleValues.items
                  else if roleValues.JStr? then [roleValues]
                  else [];
    RolesAreCanonical(values);
    NormalizeRoleValues(values)
  }

  /** A reader returning something other than an array or a string grants no role. */
  lemma ReaderNonListGrantsNothing(user: JsValue, read: JsValue -> JsValue)
    requires !read(user).JArray? && !read(user).JStr?
    ensures GetRoleSet(user, Some(read)) == {}
  {
  }

  /** `hasRequiredRole`: no requirement, or some required role is held; that
      is, the two sets meet. */
  predicate HasRequiredRole(userRoles: set<string>, requiredRoles: set<string>): (r: bool)
    ensures r <==> requiredRoles == {} || userRoles * requiredRoles != {}
  {
    SharedRoleIsIntersection(userRoles, requiredRoles);
    requiredRoles == {} || exists role :: role in requiredRoles && role in userRoles
  }

  /** Some role is in both sets exactly when their intersection is non-empty. */
  lemma SharedRoleIsIntersection(userRoles: set<string>, requiredRoles: set<string>)
    ensures (exists role :: role in requiredRoles && role in userRoles) <==> userRoles * requiredRoles != {}
  {
    if userRoles * requiredRoles != {} {
      var x :| x in userRoles * requiredRoles;
    }
    if exists role :: role in requiredRoles && role in userRoles {
      var x :| x in requiredRoles && x in userRoles;
      assert x in userRoles * requiredRoles;
    }
  }

  lemma HasRequiredRoleIsIntersection(userRoles: set<string>, requiredRoles: set<string>)
    ensures HasRequiredRole(userRoles, requiredRoles) <==>
            requiredRoles == {} || userRoles * requiredRoles != {}
  {
    SharedRoleIsIntersection(userRoles, requiredRoles);
  }
}
