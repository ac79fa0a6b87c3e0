/** The signal store that the trading provider shares with every component
    (context/TradingContext.tsx): a newest-first list of signals that ignores
    a signal whose id it already holds, and the list of active bots. */
module TradingContext {
  import opened Types

  /** The bots the provider starts with. */
  const DEFAULT_BOTS: seq<string> := ["EURUSD", "GBPUSD"]

  /** The error `useTradingStore` throws outside a provider. */
  const MISSING_PROVIDER: string := "useTradingStore must be used within a TradingProvider"

  /** Some stored signal carries `id`. */
  ghost predicate HasId(signals: seq<Signal>, id: string)
  {
    exists i :: 0 <= i < |signals| && signals[i].id == id
  }

  /** No two stored signals share an id. */
  ghost predicate UniqueIds(signals: seq<Signal>)
  {
    forall i, j :: 0 <= i < j < |signals| ==> signals[i].id != signals[j].id
  }

  /** `prev.find(s => s.id === id)`: the first signal with that id, if any. */
  function Find(signals: seq<Signal>, id: string): (r: Option<Signal>)
    ensures r.Some? <==> HasId(signals, id)
    ensures r.Some? ==> r.value.id == id && r.value in signals
  {
    if |signals| == 0 then None
    else if signals[0].id == id then Some(signals[0])
    else
      assert HasId(signals, id) ==> HasId(signals[1..], id) by {
        if HasId(signals, id) {
          var i :| 0 <= i < |signals| && signals[i].id == id;
          assert signals[1..][i - 1].id == id;
        }
      }
      Find(signals[1..], id)
  }

  /** The updater `addSignal` hands to `setSignals`: the list unchanged when a
      signal with the same id is already there, otherwise the new signal in front. */
  function Added(prev: seq<Signal>, signal: Signal): (r: seq<Signal>)
    ensures HasId(prev, signal.id) ==> r == prev
    ensures !HasId(prev, signal.id) ==> r == [signal] + prev
  {
    if Find(prev, signal.id).Some? then prev else [signal] + prev
  }

  /** A signal with a new id goes to index 0 and the old list follows unchanged. */
  lemma AddedFresh(prev: seq<Signal>, signal: Signal)
    requires !HasId(prev, signal.id)
    ensures |Added(prev, signal)| == |prev| + 1
    ensures Added(prev, signal)[0] == signal && Added(prev, signal)[1..] == prev
  {
  }

  /** A signal whose id is already stored is discarded: same records, same order. */
  lemma AddedDuplicate(prev: seq<Signal>, signal: Signal)
    requires HasId(prev, signal.id)
    ensures Added(prev, signal) == prev
  {
  }

  /** After adding, the signal's id is stored; nothing is evicted. */
  lemma AddedHasId(prev: seq<Signal>, signal: Signal)
    ensures HasId(Added(prev, signal), signal.id)
    ensures |Added(prev, signal)| >= |prev|
    ensures forall x :: x in prev ==> x in Added(prev, signal)
  {
    if !HasId(prev, signal.id) {
      assert Added(prev, signal)[0] == signal;
    }
  }

  /** Adding keeps ids unique. */
  lemma AddedKeepsUnique(prev: seq<Signal>, signal: Signal)
    requires UniqueIds(prev)
    ensures UniqueIds(Added(prev, signal))
  {
    if !HasId(prev, signal.id) {
      var r := Added(prev, signal);
      forall i, j | 0 <= i < j < |r| ensures r[i].id != r[j].id {
        if i == 0 {
          assert r[j] == prev[j - 1];
        } else {
          assert r[i] == prev[i - 1] && r[j] == prev[j - 1];
        }
      }
    }
  }

  /** Adding the same signal twice is the same as adding it once. */
  lemma AddedIdempotent(prev: seq<Signal>, signal: Signal)
    ensures Added(Added(prev, signal), signal) == Added(prev, signal)
  {
    AddedHasId(prev, signal);
  }

  /** The provider's state: the `signals` and `activeBots` cells, which
      `addSignal`, `clearSignals` and `setActiveBots` replace. */
  class TradingStore {
    var signals: seq<Signal>
    var activeBots: seq<string>

    /** The store invariant: the provider starts with it and `addSignal`,
        `clearSignals` and `setActiveBots` keep it. */
    ghost predicate Valid()
      reads this
    {
      UniqueIds(signals)
    }

    /** The provider's initial state: no signals, the two default bots. */
    constructor ()
      ensures Valid()
      ensures signals == [] && activeBots == DEFAULT_BOTS
    {
      signals := [];
      activeBots := DEFAULT_BOTS;
    }

    /** `addSignal`: new signals go to the front; a known id is ignored. */
    method AddSignal(signal: Signal)
      modifies this
      ensures old(Valid()) ==> Valid()
      ensures signals == Added(old(signals), signal)
      ensures HasId(old(signals), signal.id) ==> signals == old(signals)
      ensures !HasId(old(signals), signal.id) ==> signals == [signal] + old(signals)
      ensures activeBots == old(activeBots)
    {
      if Valid() {
        AddedKeepsUnique(signals, signal);
      }
      signals := Added(signals, signal);
    }

    /** `clearSignals`: empties the list, whatever it held. */
    method ClearSignals()
      modifies this
      ensures Valid()
      ensures signals == [] && activeBots == old(activeBots)
    {
      signals := [];
    }

    /** `setActiveBots`: replaces the bot list and nothing else. */
    method SetActiveBots(bots: seq<string>)
      modifies this
      ensures Valid() == old(Valid())
      ensures activeBots == bots && signals == old(signals)
    {
      activeBots := bots;
    }
  }

  /** `useTradingStore`: the provider's store, or the error it throws when
      the component is rendered outside a provider. */
  function UseTradingStore(context: Option<TradingStore>): (r: Result<TradingStore>)
    ensures r.Ok? <==> context.Some?
    ensures r.Ok? ==> r.value == context.value
    ensures r.Err? ==> r.message == MISSING_PROVIDER
  {
    match context
    case None => Err(MISSING_PROVIDER)
    case Some(store) => Ok(store)
  }
}
