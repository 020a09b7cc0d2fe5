/**
 The settings record: one optional adapter per event kind, written only by
 the registration methods, plus the ordered application of a parser's
 configuration block.
 */
module Settings {
  import opened Wrappers
  import opened Events
  import opened Callbacks

  /** A missing key is a NULL slot: the engine skips that event. */
  type Settings<V> = map<Kind, Adapter<V>>

  /** One `on_*` call made by a configuration block: the slot and the block passed. */
  datatype Registration<V> = Registration(kind: Kind, block: Option<Block<V>>)

  /** `Settings.new`: every slot empty. */
  function Empty<V>(): (s: Settings<V>)
    ensures forall k :: Lookup(s, k) == None
  {
    map[]
  }

  function Lookup<V>(s: Settings<V>, k: Kind): Option<Adapter<V>>
  {
    if k in s then Some(s[k]) else None
  }

  /** The adapter class each kind is wrapped in: `DataCallback` for data kinds, `Callback` otherwise. */
  function AdapterFor<V>(k: Kind, flavour: Flavour, block: Option<Block<V>>): (a: Adapter<V>)
    ensures a.DataCallback? <==> ShapeOf(k) == Data
    ensures a.flavour == flavour && a.block == block
  {
    if ShapeOf(k) == Data then DataCallback(flavour, block) else SignalCallback(flavour, block)
  }

  /** Every stored adapter has the shape of the slot it sits in. */
  ghost predicate WellShaped<V>(s: Settings<V>)
  {
    forall k :: k in s ==> (s[k].DataCallback? <==> ShapeOf(k) == Data)
  }

  /** `@settings[key] = adapter`: writes slot `k`, overwriting it, and no other. */
  function Store<V>(s: Settings<V>, k: Kind, a: Adapter<V>): (r: Settings<V>)
    ensures Lookup(r, k) == Some(a)
    ensures forall j :: j != k ==> Lookup(r, j) == Lookup(s, j)
    ensures WellShaped(s) && (a.DataCallback? <==> ShapeOf(k) == Data) ==> WellShaped(r)
  {
    s[k := a]
  }

  /** Applies registrations in order, each wrapping its block in the given flavour. */
  function Apply<V>(s: Settings<V>, script: seq<Registration<V>>, flavour: Flavour): Settings<V>
    decreases |script|
  {
    if |script| == 0 then s
    else
      var last := script[|script| - 1];
      Store(Apply(s, script[..|script| - 1], flavour), last.kind, AdapterFor(last.kind, flavour, last.block))
  }

  /** The last registration of a kind decides its slot. */
  lemma {:induction false} ApplyLastWins<V>(s: Settings<V>, script: seq<Registration<V>>, flavour: Flavour, i: nat)
    requires i < |script|
    requires forall j :: i < j < |script| ==> script[j].kind != script[i].kind
    ensures Lookup(Apply(s, script, flavour), script[i].kind)
         == Some(AdapterFor(script[i].kind, flavour, script[i].block))
    decreases |script|
  {
    if i < |script| - 1 {
      var prefix := script[..|script| - 1];
      ApplyLastWins(s, prefix, flavour, i);
    }
  }

  /** A kind no registration names keeps whatever the slot held before. */
  lemma {:induction false} ApplyUntouched<V>(s: Settings<V>, script: seq<Registration<V>>, flavour: Flavour, k: Kind)
    requires forall j :: 0 <= j < |script| ==> script[j].kind != k
    ensures Lookup(Apply(s, script, flavour), k) == Lookup(s, k)
    decreases |script|
  {
    if |script| > 0 {
      ApplyUntouched(s, script[..|script| - 1], flavour, k);
    }
  }

  /** Registration never puts an adapter of the wrong shape into a slot. */
  lemma {:induction false} ApplyWellShaped<V>(s: Settings<V>, script: seq<Registration<V>>, flavour: Flavour)
    requires WellShaped(s)
    ensures WellShaped(Apply(s, script, flavour))
    decreases |script|
  {
    if |script| > 0 {
      ApplyWellShaped(s, script[..|script| - 1], flavour);
    }
  }
}
