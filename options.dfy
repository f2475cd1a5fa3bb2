/** Python dictionaries as the scripts build them for the registration engine:
    string keys, values that are strings, numbers, callables, nested dicts or lists. */
module Options {

  datatype Option<T> = None | Some(value: T)

  /** A callable stored under 'callback': the module's own `estimator_callback`,
      or some function of the caller's, known only by name. */
  datatype Callback = ModuleEstimatorCallback | UserCallback(name: string)

  /** A dictionary value. Numeric hyperparameters are opaque constants (no
      arithmetic is done on them), kept as the literal the source writes. */
  datatype Value =
    | VStr(s: string)
    | VInt(i: int)
    | VFloat(literal: string)
    | VCallback(callback: Callback)
    | VDict(entries: map<string, Value>)
    | VList(items: seq<Value>)

  type Dict = map<string, Value>

  /** Python truthiness of an optional dict argument: `None` and `{}` are false. */
  predicate Given(u: Option<Dict>) {
    u.Some? && u.value != map[]
  }

  /** `if u: d.update(u)`, a shallow update: every key of `u` replaces the whole
      value stored under it in `d`, and every other key of `d` keeps its value. */
  function Update(d: Dict, u: Option<Dict>): (r: Dict)
    ensures u.None? ==> r == d
    ensures u.Some? ==> r.Keys == d.Keys + u.value.Keys
    ensures u.Some? ==> forall k :: k in u.value ==> r[k] == u.value[k]
    ensures forall k :: k in d && (u.None? || k !in u.value) ==> r[k] == d[k]
  {
    if Given(u) then d + u.value else d
  }

  /** The statement `if u: d.update(u)` on a local dict. */
  method UpdateWith(d: Dict, u: Option<Dict>) returns (r: Dict)
    ensures r == Update(d, u)
  {
    r := d;
    if Given(u) {
      r := r + u.value;
    }
  }

  /** One subject's file group, `[{'skull': path}]`. */
  function SkullGroup(path: string): Value {
    VList([VDict(map["skull" := VStr(path)])])
  }
}
