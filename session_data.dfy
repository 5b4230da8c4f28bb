/**
 * The data a cookie session carries: an ordered mapping from names to one-element
 * lists of values (a PHP array with string keys, which keeps insertion order), plus the
 * expiry timestamp. `Payload` is the pair `[values, expire]` that is serialized.
 */
module SessionData {
  import opened Wrappers

  /** The session values this model covers: null, booleans, integers, strings and lists.
      Floats, string-keyed arrays and objects are not modelled. */
  datatype Value = Null | Bool(b: bool) | Int(i: int) | Str(s: string) | List(items: seq<Value>)

  /** One name with its list of values (`[$value]` as stored by `register`). */
  datatype Entry = Entry(name: string, list: seq<Value>)

  predicate DistinctNames(es: seq<Entry>) {
    forall i, j | 0 <= i < j < |es| :: es[i].name != es[j].name
  }

  /** An ordered map: a PHP array never holds the same key twice. */
  type Entries = es: seq<Entry> | DistinctNames(es)

  /** What `serialize` encodes and `open` decodes: `[values, expire]`. */
  datatype Payload = Payload(values: Entries, expire: int)

  /** `array_keys`: the names in insertion order. The ensures spells the comprehension out
      position by position for the verifier; it is a helper fact, not a promise of the source. */
  function Names(es: seq<Entry>): (ns: seq<string>)
    ensures |ns| == |es| && forall i | 0 <= i < |es| :: ns[i] == es[i].name
  {
    seq(|es|, i requires 0 <= i < |es| => es[i].name)
  }

  /** The position of the first entry called `name`, if any. */
  function Find(es: seq<Entry>, name: string): (k: Option<nat>)
    ensures k.Some? ==> k.value < |es| && es[k.value].name == name
    ensures k.Some? ==> forall i | 0 <= i < k.value :: es[i].name != name
    ensures k.None? ==> forall i | 0 <= i < |es| :: es[i].name != name
    decreases |es|
  {
    if |es| == 0 then None
    else if es[0].name == name then Some(0)
    else match Find(es[1..], name)
      case None => None
      case Some(k) => Some(k + 1)
  }

  /** `$values[$name]`, or `None` when the key is absent. */
  function Lookup(es: seq<Entry>, name: string): (r: Option<seq<Value>>)
    ensures r.Some? <==> name in Names(es)
    ensures forall k | 0 <= k < |es| && es[k].name == name :: DistinctNames(es) ==> r == Some(es[k].list)
  {
    match Find(es, name)
    case Some(k) => Some(es[k].list)
    case None => None
  }

  /** `$values[$name]= $list`: an existing key keeps its position and gets the new list,
      a new key is appended at the end. */
  function Put(es: Entries, name: string, list: seq<Value>): (r: Entries)
    ensures name in Names(es) ==> Names(r) == Names(es)
    ensures name !in Names(es) ==> Names(r) == Names(es) + [name]
    ensures Lookup(r, name) == Some(list)
    ensures forall n | n != name :: Lookup(r, n) == Lookup(es, n)
  {
    match Find(es, name)
    case Some(k) =>
      var r := es[k := Entry(name, list)];
      assert Names(r) == Names(es);
      r
    case None =>
      var r := es + [Entry(name, list)];
      assert Names(r) == Names(es) + [name];
      r
  }

  /** `unset($values[$name])`: the entry goes, the others keep their order. */
  function Delete(es: Entries, name: string): (r: Entries)
    ensures name !in Names(r)
    ensures forall n | n != name :: Lookup(r, n) == Lookup(es, n)
    ensures name !in Names(es) ==> r == es
    ensures forall k | 0 <= k < |es| && es[k].name == name :: Names(r) == Names(es)[..k] + Names(es)[k + 1..]
  {
    match Find(es, name)
    case Some(k) =>
      var r := es[..k] + es[k + 1..];
      assert Names(r) == Names(es)[..k] + Names(es)[k + 1..];
      r
    case None => es
  }

  /** `$values[$name][0] ?? $default`: the first value stored under `name`, unless the key
      is absent, its list is empty or that value is null. */
  function Fetch(es: Entries, name: string, default: Value): (v: Value)
    ensures v == default || (name in Names(es) && v != Null)
    ensures name !in Names(es) ==> v == default
    ensures forall k | 0 <= k < |es| && es[k].name == name && |es[k].list| > 0 && es[k].list[0] != Null ::
      v == es[k].list[0]
    ensures forall k | 0 <= k < |es| && es[k].name == name && (|es[k].list| == 0 || es[k].list[0] == Null) ::
      v == default
  {
    match Lookup(es, name)
    case Some(list) => if |list| > 0 && list[0] != Null then list[0] else default
    case None => default
  }

  /** After `$values[$name]= [$v]`, reading `name` gives `v` (or the default when `v` is
      null, because of `??`), and every other name reads as before. */
  lemma FetchAfterPut(es: Entries, name: string, v: Value, other: string, default: Value)
    ensures Fetch(Put(es, name, [v]), name, default) == if v == Null then default else v
    ensures other != name ==> Fetch(Put(es, name, [v]), other, default) == Fetch(es, other, default)
  {
  }

  /** After `unset($values[$name])`, reading `name` gives the default and every other name
      reads as before. */
  lemma FetchAfterDelete(es: Entries, name: string, other: string, default: Value)
    ensures Fetch(Delete(es, name), name, default) == default
    ensures other != name ==> Fetch(Delete(es, name), other, default) == Fetch(es, other, default)
  {
  }
}
