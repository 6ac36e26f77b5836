/** The slice of JavaScript object semantics that `clone` (index.js:206-213) and
    the metadata writes (index.js:112, 169) rely on. */
module JsObjects {

  import opened Wrappers

  /** A JavaScript object whose property values are strings (Azure metadata
      values are strings). `own` holds its own enumerable properties,
      `inherited` the enumerable ones reachable through its prototype; an own
      property shadows an inherited one of the same key, and writing a key
      never changes the prototype. `for...in` visits the keys of both. */
  class Obj {
    var own: map<string, string>
    var inherited: map<string, string>

    /** `obj.constructor()` for a plain object: a new, empty `Object`. */
    constructor ()
      ensures own == map[] && inherited == map[]
    {
      own := map[];
      inherited := map[];
    }
  }

  /** A JavaScript value as far as the metadata code can tell them apart:
      `null`, `undefined`, a primitive (string, number, boolean), or a
      reference to a plain object. Functions, which `clone` also returns
      unchanged but which take property writes, are not modelled. */
  datatype JsValue = Null | Undefined | Prim(text: string) | Ref(obj: Obj)

  /** The observable contents of a `JsValue`: an object is seen through its own
      properties. */
  datatype MetaValue = MNull | MUndefined | MPrim(text: string) | MObject(props: map<string, string>)

  function View(v: JsValue): (m: MetaValue)
    reads if v.Ref? then {v.obj} else {}
    ensures m.MObject? <==> v.Ref?
  {
    match v
    case Null => MNull
    case Undefined => MUndefined
    case Prim(t) => MPrim(t)
    case Ref(o) => MObject(o.own)
  }

  /** `target[key] = val` in sloppy-mode code: a TypeError on `null` and
      `undefined` (None), silently ignored on a primitive, an own property set or
      overwritten on an object. */
  function WithProperty(target: MetaValue, key: string, val: string): (r: Option<MetaValue>)
    ensures r.None? <==> target.MNull? || target.MUndefined?
    ensures target.MPrim? ==> r == Some(target)
    ensures target.MObject? ==>
              && r.Some? && r.value.MObject?
              && r.value.props.Keys == target.props.Keys + {key}
              && r.value.props[key] == val
              && forall k :: k in target.props && k != key ==> r.value.props[k] == target.props[k]
  {
    match target
    case MNull => None
    case MUndefined => None
    case MPrim(_) => Some(target)
    case MObject(props) => Some(MObject(props[key := val]))
  }

  /** The property write on a real value; `ok` is false where JavaScript throws.
      Only the target object changes. */
  method SetProperty(target: JsValue, key: string, val: string) returns (ok: bool)
    modifies if target.Ref? then {target.obj} else {}
    ensures WithProperty(old(View(target)), key, val) == if ok then Some(View(target)) else None
    ensures target.Ref? ==> target.obj.inherited == old(target.obj.inherited)
  {
    match target
    case Null => ok := false;
    case Undefined => ok := false;
    case Prim(_) => ok := true;
    case Ref(o) =>
      o.own := o.own[key := val];
      ok := true;
  }

  /** Whether `obj` has a property `key`, its own or through its prototype,
      that is one of its string values rather than `Object.prototype`'s. */
  predicate Shadows(v: JsValue, key: string)
    reads if v.Ref? then {v.obj} else {}
  {
    v.Ref? && (key in v.obj.own || key in v.obj.inherited)
  }

  /** What `clone(v)` gives, seen from outside: `None` where it throws, which
      is for an object whose `constructor` (line 208) or `hasOwnProperty`
      (line 210) is one of its string values and so cannot be called;
      otherwise the same contents. */
  function Cloned(v: JsValue): (r: Option<MetaValue>)
    reads if v.Ref? then {v.obj} else {}
    ensures r.None? <==> v.Ref? && (Shadows(v, "constructor") || Shadows(v, "hasOwnProperty"))
    ensures r.Some? ==> r.value == View(v)
    ensures !v.Ref? ==> r == Some(View(v))
  {
    if Shadows(v, "constructor") || Shadows(v, "hasOwnProperty") then None else Some(View(v))
  }

  /** `clone(obj)`: `null`, `undefined` and primitives come back unchanged. For
      an object, `obj.constructor()` makes a fresh one, and a `for...in` walk
      copies the keys that `obj.hasOwnProperty` accepts. `ok` is false where
      either call throws a TypeError. The original is untouched. */
  method Clone(v: JsValue) returns (ok: bool, r: JsValue)
    ensures ok <==> Cloned(v).Some?
    ensures ok && !v.Ref? ==> r == v
    ensures ok && v.Ref? ==> r.Ref? && fresh(r.obj) && r.obj.inherited == map[]
    ensures ok ==> View(r) == View(v)
  {
    if !v.Ref? {
      return true, v;
    }
    var src := v.obj;
    if Shadows(v, "constructor") {
      return false, v;
    }
    var copy := new Obj();
    var pending := src.own.Keys + src.inherited.Keys;
    while pending != {}
      invariant pending <= src.own.Keys + src.inherited.Keys
      invariant forall k :: k in copy.own <==> k in src.own && k !in pending
      invariant forall k :: k in copy.own ==> copy.own[k] == src.own[k]
      invariant copy.inherited == map[]
      invariant !Shadows(v, "hasOwnProperty") || pending == src.own.Keys + src.inherited.Keys
      decreases pending
    {
      var attr :| attr in pending;
      if Shadows(v, "hasOwnProperty") {
        return false, v;
      }
      if attr in src.own {
        copy.own := copy.own[attr := src.own[attr]];
      }
      pending := pending - {attr};
    }
    return true, Ref(copy);
  }
}
