/** Failure actions of a mirror group: the dicts with keys `increment`,
    `increment_master`, `remove`, `remove_master` and `fail`, the per-key
    merge of the three places an action can come from, and the lookup with
    the built-in default that `increment_mirror` and `_failure` perform. */
module Actions {

  /** The keys of an action dict that the failover logic reads. */
  datatype Key = Increment | IncrementMaster | Remove | RemoveMaster | Fail

  /** A possibly partial action dict. A value is read as a Python truth
      value: 0 is false, every other value is true. */
  type Action = map<Key, int>

  /** The value `action.get(key, default)` falls back on: the three keys
      that keep a download going default to on, `remove_master` and `fail`
      to off. */
  function BuiltinDefault(k: Key): (d: int)
    ensures d == 0 || d == 1
    ensures d == 1 <==> k in {Increment, IncrementMaster, Remove}
  {
    match k
    case Increment => 1
    case IncrementMaster => 1
    case Remove => 1
    case RemoveMaster => 0
    case Fail => 0
  }

  /** `a.get(k, default)`: the value `a` sets for `k`, if any. */
  function Get(a: Action, k: Key, default: int): (v: int)
    ensures k in a ==> v == a[k]
    ensures k !in a ==> v == default
  {
    if k in a then a[k] else default
  }

  /** Whether `a.get(k, <built-in default>)` is truthy: set exactly when the
      dict holds a non-zero value for `k` (so 2 acts like 1), or leaves `k`
      out and its built-in default is on. */
  predicate Flag(a: Action, k: Key): (b: bool)
    ensures k in a ==> (b <==> a[k] != 0)
    ensures k !in a ==> (b <==> k != RemoveMaster && k != Fail)
  {
    Get(a, k, BuiltinDefault(k)) != 0
  }

  /** Reference reading of the precedence rule: look the key up in each tier,
      highest precedence first, and fall back on `default` when none sets it. */
  function Resolve(tiers: seq<Action>, k: Key, default: int): int {
    if tiers == [] then default
    else if k in tiers[0] then tiers[0][k]
    else Resolve(tiers[1..], k, default)
  }

  /** The merge in `_failure`: start from the group's `default_action`, update
      it with the call's `default_action`, then with the callback's answer. */
  function Merge(group: Action, call: Action, callback: Action): (a: Action)
    ensures a.Keys == group.Keys + call.Keys + callback.Keys
    ensures forall k :: k in callback ==> a[k] == callback[k]
    ensures forall k :: k in call && k !in callback ==> a[k] == call[k]
    ensures forall k :: k in group && k !in call && k !in callback ==> a[k] == group[k]
  {
    group + call + callback
  }

  /** Merge precedence: every key reads as in the callback's answer, else the
      call's default action, else the group's, else the built-in default. */
  lemma MergePrecedence(group: Action, call: Action, callback: Action, k: Key, d: int)
    ensures Get(Merge(group, call, callback), k, d) == Resolve([callback, call, group], k, d)
  {
    var tiers := [callback, call, group];
    assert tiers[1..] == [call, group] && tiers[1..][1..] == [group] && tiers[1..][1..][1..] == [];
    assert Resolve(tiers[1..][1..], k, d) == Get(group, k, d);
    assert Resolve(tiers[1..], k, d) == if k in call then call[k] else Get(group, k, d);
  }

  /** The five flags an action resolves to once every key has a value. */
  datatype Policy = Policy(increment: bool, incrementMaster: bool, remove: bool,
                           removeMaster: bool, fail: bool)

  function Effective(a: Action): Policy {
    Policy(Flag(a, Increment), Flag(a, IncrementMaster), Flag(a, Remove),
           Flag(a, RemoveMaster), Flag(a, Fail))
  }

  /** With nothing set anywhere, a failure advances both cursors, removes the
      mirror from the request only, and does not fail the download. */
  lemma DefaultPolicy()
    ensures Effective(Merge(map[], map[], map[])) == Policy(true, true, true, false, false)
  {
  }

  /** The worked example of the class documentation: `{'fail': 1}` at
      instantiation, `{'increment': 0}` for the call, `{'fail': 0}` from the
      callback. */
  lemma DocumentedMerge()
    ensures Effective(Merge(map[Fail := 1], map[Increment := 0], map[Fail := 0]))
         == Policy(false, true, true, false, false)
  {
  }

  /** A key the callback leaves unset falls through to the lower tiers: a
      partial answer never resets the other keys to their defaults. */
  lemma UnsetKeyFallsThrough(group: Action, call: Action, callback: Action, k: Key)
    requires k !in callback
    ensures Flag(Merge(group, call, callback), k) == Flag(Merge(group, call, map[]), k)
    ensures Flag(Merge(group, call, callback), k)
         == (if k in call then call[k] != 0 else Flag(group, k))
  {
  }

  /** A key the callback sets wins over every lower tier. */
  lemma CallbackWins(group: Action, call: Action, callback: Action, k: Key)
    requires k in callback
    ensures Flag(Merge(group, call, callback), k) == (callback[k] != 0)
  {
  }
}
