/**
 * GlobalDefaultPermission: the capability an HTTP request needs on an
 * object is "<app_label>.<action>_<model_name>", where the action comes
 * from the request method and the labels from the model behind the view's
 * queryset; the decision is the user's has_perm on that codename.
 */
module Permissions {
  import opened Wrappers

  /** model._meta of the view's queryset: the app label and the model name. */
  datatype ModelMeta = ModelMeta(appLabel: string, modelName: string)

  /** The methods the action table names, with the action each maps to. */
  const MethodActions: seq<(string, string)> :=
    [("GET", "view"), ("POST", "add"), ("PUT", "change"), ("PATCH", "change"),
     ("DELETE", "delete"), ("OPTIONS", "view"), ("HEAD", "view")]

  /** dict.get(key, default) over a list of (key, value) pairs with distinct keys. */
  function Lookup(table: seq<(string, string)>, key: string, fallback: string): string
  {
    if table == [] then fallback
    else if table[0].0 == key then table[0].1
    else Lookup(table[1..], key, fallback)
  }

  /** __get_action_suffix: the action a request method maps to, or the empty string for a method outside the table. */
  function ActionSuffix(httpMethod: string): (action: string)
    ensures action in {"view", "add", "change", "delete", ""}
  {
    LookupRange(MethodActions, httpMethod, "");
    Lookup(MethodActions, httpMethod, "")
  }

  /**
   * __get_model_permission_codename: None when the view has no queryset or
   * the queryset no model metadata (the AttributeError branch), otherwise
   * f'{app_label}.{action}_{model_name}'.
   */
  function ModelPermissionCodename(httpMethod: string, meta: Option<ModelMeta>): (codename: Option<string>)
    ensures codename.Some? <==> meta.Some?
    ensures codename.Some? ==> '.' in codename.value && '_' in codename.value
  {
    match meta
    case None => None
    case Some(m) => Some(m.appLabel + "." + ActionSuffix(httpMethod) + "_" + m.modelName)
  }

  /**
   * has_object_permission: no codename denies; otherwise the user's
   * has_perm on the codename decides. `hasPerm` stands for
   * request.user.has_perm; `obj` is accepted and not consulted.
   */
  function HasObjectPermission<O>(hasPerm: string -> bool, httpMethod: string, meta: Option<ModelMeta>, obj: O): (granted: bool)
    ensures meta.None? ==> !granted
    ensures meta.Some? ==> (granted <==> hasPerm(ModelPermissionCodename(httpMethod, meta).value))
  {
    match ModelPermissionCodename(httpMethod, meta)
    case None => false
    case Some(codename) => codename != [] && hasPerm(codename)
  }

  // The action table.

  /** Every entry of the table, and the empty string for any other method. */
  lemma ActionTable(httpMethod: string)
    ensures ActionSuffix("GET") == "view" && ActionSuffix("OPTIONS") == "view" && ActionSuffix("HEAD") == "view"
    ensures ActionSuffix("POST") == "add"
    ensures ActionSuffix("PUT") == "change" && ActionSuffix("PATCH") == "change"
    ensures ActionSuffix("DELETE") == "delete"
    ensures ActionSuffix(httpMethod) == "" <==> httpMethod !in {"GET", "POST", "PUT", "PATCH", "DELETE", "OPTIONS", "HEAD"}
  {
    if httpMethod !in {"GET", "POST", "PUT", "PATCH", "DELETE", "OPTIONS", "HEAD"} {
      LookupMissing(MethodActions, httpMethod, "");
    }
  }

  /** Lookup falls back to the default when no pair has the key. */
  lemma {:induction false} LookupMissing(table: seq<(string, string)>, key: string, fallback: string)
    requires forall i :: 0 <= i < |table| ==> table[i].0 != key
    ensures Lookup(table, key, fallback) == fallback
  {
    if table != [] {
      assert forall i :: 0 <= i < |table[1..]| ==> table[1..][i] == table[i + 1];
      LookupMissing(table[1..], key, fallback);
    }
  }

  // The codename.

  /** Splits s at its first occurrence of c: the part before and the part after. */
  function SplitAtFirst(s: string, c: char): Option<(string, string)>
  {
    if s == [] then None
    else if s[0] == c then Some(([], s[1..]))
    else match SplitAtFirst(s[1..], c)
      case None => None
      case Some(p) => Some(([s[0]] + p.0, p.1))
  }

  lemma {:induction false} SplitAtFirstOfJoin(a: string, c: char, b: string)
    requires c !in a
    ensures SplitAtFirst(a + [c] + b, c) == Some((a, b))
  {
    if a != [] {
      assert (a + [c] + b)[1..] == a[1..] + [c] + b;
      SplitAtFirstOfJoin(a[1..], c, b);
      assert [a[0]] + a[1..] == a;
    } else {
      assert a + [c] + b == [c] + b;
    }
  }

  /**
   * Reading a codename back: the app label is what precedes the first '.',
   * the action what follows it up to the first '_', the model name the rest.
   */
  function ParseCodename(codename: string): Option<(string, string, string)>
  {
    match SplitAtFirst(codename, '.')
    case None => None
    case Some((app, rest)) =>
      match SplitAtFirst(rest, '_')
      case None => None
      case Some((action, model)) => Some((app, action, model))
  }

  /**
   * The codename names its parts unambiguously: Django app labels contain no
   * '.', and no action contains '_', so the codename gives back the app label,
   * the action of the method and the model name.
   */
  lemma CodenameRoundTrip(httpMethod: string, m: ModelMeta)
    requires '.' !in m.appLabel
    ensures ParseCodename(ModelPermissionCodename(httpMethod, Some(m)).value) == Some((m.appLabel, ActionSuffix(httpMethod), m.modelName))
  {
    var action := ActionSuffix(httpMethod);
    assert '_' !in action by { ActionValues(httpMethod); }
    var rest := action + "_" + m.modelName;
    assert m.appLabel + "." + action + "_" + m.modelName == m.appLabel + ['.'] + rest;
    SplitAtFirstOfJoin(m.appLabel, '.', rest);
    SplitAtFirstOfJoin(action, '_', m.modelName);
  }

  lemma ActionValues(httpMethod: string)
    ensures ActionSuffix(httpMethod) in {"view", "add", "change", "delete", ""}
  {
    LookupRange(MethodActions, httpMethod, "");
  }

  /** dict.get returns the default or one of the table's values. */
  lemma {:induction false} LookupRange(table: seq<(string, string)>, key: string, fallback: string)
    ensures Lookup(table, key, fallback) == fallback || exists i :: 0 <= i < |table| && Lookup(table, key, fallback) == table[i].1
  {
    if table != [] && table[0].0 != key {
      LookupRange(table[1..], key, fallback);
      if Lookup(table, key, fallback) != fallback {
        var i :| 0 <= i < |table[1..]| && Lookup(table, key, fallback) == table[1..][i].1;
        assert table[1..][i] == table[i + 1];
      }
    }
  }

  /** Two requests on models with dot-free app labels need the same capability only if they name the same app, action and model. */
  lemma CodenameInjective(httpMethod1: string, m1: ModelMeta, httpMethod2: string, m2: ModelMeta)
    requires '.' !in m1.appLabel && '.' !in m2.appLabel
    requires ModelPermissionCodename(httpMethod1, Some(m1)) == ModelPermissionCodename(httpMethod2, Some(m2))
    ensures m1 == m2 && ActionSuffix(httpMethod1) == ActionSuffix(httpMethod2)
  {
    CodenameRoundTrip(httpMethod1, m1);
    CodenameRoundTrip(httpMethod2, m2);
  }

  /** A DELETE on a model needs "<app>.delete_<model>". */
  lemma DeleteNeedsDeleteCapability(m: ModelMeta)
    ensures ModelPermissionCodename("DELETE", Some(m)) == Some(m.appLabel + ".delete_" + m.modelName)
  {
    assert ActionSuffix("DELETE") == "delete";
    assert m.appLabel + "." + "delete" + "_" + m.modelName == m.appLabel + ".delete_" + m.modelName;
  }

  /**
   * A method outside the table still yields a non-empty codename,
   * "<app>._<model>"; so the request is not refused for its method: a user
   * holding that codename is granted.
   */
  lemma UnknownMethodDecidedByHasPerm(httpMethod: string, m: ModelMeta, hasPerm: string -> bool)
    requires ActionSuffix(httpMethod) == ""
    ensures ModelPermissionCodename(httpMethod, Some(m)) == Some(m.appLabel + "._" + m.modelName)
    ensures HasObjectPermission(hasPerm, httpMethod, Some(m), 0) == hasPerm(m.appLabel + "._" + m.modelName)
  {
    assert m.appLabel + "." + "" + "_" + m.modelName == m.appLabel + "._" + m.modelName;
  }

  /** Without model metadata every request is refused, whatever the user may do. */
  lemma NoMetaDenies<O>(hasPerm: string -> bool, httpMethod: string, obj: O)
    ensures !HasObjectPermission(hasPerm, httpMethod, None, obj)
  {
  }

  /** The object under inspection never changes the decision. */
  lemma DecisionIgnoresObject<O>(hasPerm: string -> bool, httpMethod: string, meta: Option<ModelMeta>, a: O, b: O)
    ensures HasObjectPermission(hasPerm, httpMethod, meta, a) == HasObjectPermission(hasPerm, httpMethod, meta, b)
  {
  }
}
