/**
  The `Home` page of the check-in dashboard: the counter cell, the address
  abbreviation, the network gate and the builder-list effect, and the page
  state they update.
 */
module HomePage {

  import opened Wrappers
  import opened JsRuntime
  import opened BuilderList

  // ---------------------------------------------------------------------------
  // Counter cell

  /** What the counter cell shows: loading dots, or the counter's text (`undefined` without data). */
  datatype CounterCell = LoadingDots | Text(text: Option<string>)

  /**
    The counter cell: loading dots while the counter read is loading, never a
    stale number; afterwards the decimal text of the counter when there is one.
   */
  function CheckedInCounterElement(isLoading: bool, checkedInCounter: Option<int>): (cell: CounterCell)
    ensures cell.LoadingDots? <==> isLoading
    ensures !isLoading ==> (cell.text.Some? <==> checkedInCounter.Some?)
    ensures !isLoading && checkedInCounter.Some? ==> cell.text == Some(BigIntToString(checkedInCounter.value))
    ensures !isLoading && checkedInCounter.Some? ==> ParseBigInt(cell.text.value) == checkedInCounter
  {
    if !isLoading then
      match checkedInCounter
      case None => Text(None)
      case Some(n) => BigIntRoundTrip(n); Text(Some(BigIntToString(n)))
    else LoadingDots
  }

  // ---------------------------------------------------------------------------
  // Address abbreviation

  /** The placeholder shown for an empty address. */
  const Resolving: string := "Resolving..."

  /**
    The narrow-screen form of an address: the first five characters, an
    ellipsis and the last four, both ends clamped to the string as
    `substring` does.
   */
  function FormatAddress(address: string): (r: string)
    ensures address == "" ==> r == Resolving
    ensures address != "" ==>
              var n := |address|;
              var p := Min(5, n);
              var q := Min(4, n);
              |r| == p + 3 + q && r[..p] == address[..p] && r[p..p + 3] == "..." && r[p + 3..] == address[n - q..]
  {
    if address == "" then Resolving
    else Substring(address, 0, 5) + "..." + SubstringFrom(address, |address| - 4)
  }

  /** A full-length address, and the empty one. */
  lemma FormatAddressExample()
    ensures FormatAddress("0x1234567890abcdef") == "0x123...cdef"
    ensures FormatAddress("") == "Resolving..."
  {
  }

  /** An address of at most four characters appears whole on both sides of the ellipsis. */
  lemma FormatAddressShort(address: string)
    requires 0 < |address| <= 4
    ensures FormatAddress(address) == address + "..." + address
  {
    var r := FormatAddress(address);
    var n := |address|;
    assert r == r[..n] + r[n..n + 3] + r[n + 3..];
  }

  /** A non-empty address never abbreviates to the placeholder. */
  lemma FormatAddressNotPlaceholder(address: string)
    requires address != ""
    ensures FormatAddress(address) != Resolving
  {
    var r := FormatAddress(address);
    var p := Min(5, |address|);
    assert r[p] == r[p..p + 3][0] == '.';
    assert Resolving[p] != '.';
  }

  // ---------------------------------------------------------------------------
  // Page state and its updates

  /** The chain id of the network the builder list is read on. */
  const OptimismChainId: int := 10

  /** The state the page keeps. */
  datatype State = State(checkedInBuilders: seq<string>, isConnectedOptimism: bool)

  /** The state on mount. */
  const Initial: State := State([], false)

  /** What one effect reacts to: a new chain, or a new result of the event-history hook. */
  datatype Update =
    | ChainChanged(chainId: int)
    | EventsChanged(isReadingEventLoading: bool, eventHistory: Option<seq<BuilderArg>>)

  /** The gate effect: it opens on chain id 10 and otherwise leaves the flag alone. */
  function NextGate(isConnectedOptimism: bool, chainId: int): bool
  {
    if chainId == OptimismChainId then true else isConnectedOptimism
  }

  /** One effect run. */
  function Step(s: State, u: Update): State
  {
    match u
    case ChainChanged(id) => s.(isConnectedOptimism := NextGate(s.isConnectedOptimism, id))
    case EventsChanged(loading, history) =>
      s.(checkedInBuilders := EffectResult(s.checkedInBuilders, loading, history, s.isConnectedOptimism))
  }

  /** A sequence of effect runs, in order. */
  function Run(s: State, us: seq<Update>): State
    decreases |us|
  {
    if us == [] then s else Run(Step(s, us[0]), us[1..])
  }

  /** The gate is open after a run exactly when it was open before or the run saw chain id 10. */
  lemma {:induction false} RunGate(s: State, us: seq<Update>)
    ensures Run(s, us).isConnectedOptimism <==> s.isConnectedOptimism || ChainChanged(OptimismChainId) in us
    decreases |us|
  {
    if us != [] {
      RunGate(Step(s, us[0]), us[1..]);
      assert us == [us[0]] + us[1..];
    }
  }

  /** Once open, the gate stays open, whatever chain ids follow. */
  lemma RunGateStaysOpen(s: State, us: seq<Update>)
    requires s.isConnectedOptimism
    ensures Run(s, us).isConnectedOptimism
  {
    RunGate(s, us);
  }

  /** Effect runs only ever append to the builder list. */
  lemma {:induction false} RunPrefix(s: State, us: seq<Update>)
    ensures s.checkedInBuilders <= Run(s, us).checkedInBuilders
    decreases |us|
  {
    if us != [] {
      RunPrefix(Step(s, us[0]), us[1..]);
    }
  }

  /** While the gate stays closed the builder list does not change, whatever batches arrive. */
  lemma {:induction false} RunClosedGate(s: State, us: seq<Update>)
    requires !s.isConnectedOptimism && ChainChanged(OptimismChainId) !in us
    ensures Run(s, us) == s
    decreases |us|
  {
    if us != [] {
      assert us[0] != ChainChanged(OptimismChainId);
      assert Step(s, us[0]) == s;
      assert ChainChanged(OptimismChainId) !in us[1..] by {
        assert us == [us[0]] + us[1..];
      }
      RunClosedGate(s, us[1..]);
    }
  }

  /** Every batch of the run has pairwise distinct defined builders. */
  predicate DistinctBatches(us: seq<Update>)
  {
    forall i :: 0 <= i < |us| && us[i].EventsChanged? && us[i].eventHistory.Some? ==>
      DistinctDefined(us[i].eventHistory.value)
  }

  /** A duplicate-free list stays duplicate-free over a run whose batches do not repeat builders. */
  lemma {:induction false} RunKeepsDistinct(s: State, us: seq<Update>)
    requires Distinct(s.checkedInBuilders) && DistinctBatches(us)
    ensures Distinct(Run(s, us).checkedInBuilders)
    decreases |us|
  {
    if us != [] {
      var next := Step(s, us[0]);
      match us[0] {
        case ChainChanged(_) =>
        case EventsChanged(loading, history) =>
          if Fires(loading, history, s.isConnectedOptimism) {
            MergedKeepsDistinct(s.checkedInBuilders, history.value);
          }
      }
      assert DistinctBatches(us[1..]) by {
        forall i | 0 <= i < |us[1..]| ensures us[1..][i] == us[i + 1] { }
      }
      RunKeepsDistinct(next, us[1..]);
    }
  }

  /** On a network other than Optimism no builder is listed, whatever the event data. */
  lemma WrongNetworkScenario()
    ensures Run(Initial, [ChainChanged(1), EventsChanged(false, Some([Some("0xABC")]))]) == Initial
  {
    var us := [ChainChanged(1), EventsChanged(false, Some([Some("0xABC")]))];
    assert us[1..][1..] == [];
  }

  /**
    On Optimism a loading batch is ignored, a loaded batch is merged with its
    undefined builder dropped, and switching away afterwards keeps both the
    gate and the list.
   */
  lemma OptimismScenario()
    ensures Run(Initial, [ChainChanged(10),
                          EventsChanged(true, Some([Some("0xABC")])),
                          EventsChanged(false, Some([None, Some("0xABC")])),
                          ChainChanged(1)])
            == State(["0xABC"], true)
  {
    var us := [ChainChanged(10),
               EventsChanged(true, Some([Some("0xABC")])),
               EventsChanged(false, Some([None, Some("0xABC")])),
               ChainChanged(1)];
    var s1 := Step(Initial, us[0]);
    assert s1 == State([], true);
    var s2 := Step(s1, us[1]);
    assert s2 == s1;
    var s3 := Step(s2, us[2]);
    UndefinedBuilderDropped();
    assert s3 == State(["0xABC"], true);
    assert us[1..][1..][1..][1..] == [];
  }

  // ---------------------------------------------------------------------------
  // The component

  /** The state of one mounted `Home` page, updated in place by its two effects. */
  class Home {
    var checkedInBuilders: seq<string>
    var isConnectedOptimism: bool

    ghost function Snapshot(): State
      reads this
    {
      State(checkedInBuilders, isConnectedOptimism)
    }

    /** Mounting: an empty list and a closed gate. */
    constructor ()
      ensures Snapshot() == Initial
    {
      checkedInBuilders := [];
      isConnectedOptimism := false;
    }

    /**
      The merge effect. `updated` says whether the list setter is called: only
      when the guard holds and the filter kept at least one builder.
     */
    method OnEventHistory(isReadingEventLoading: bool, eventHistory: Option<seq<BuilderArg>>)
      returns (updated: bool)
      modifies this`checkedInBuilders
      ensures Snapshot() == Step(old(Snapshot()), EventsChanged(isReadingEventLoading, eventHistory))
      ensures updated <==> Fires(isReadingEventLoading, eventHistory, isConnectedOptimism) &&
                           NewBuilders(AsSet(old(checkedInBuilders)), eventHistory.value) != []
      ensures updated ==>
                checkedInBuilders == old(checkedInBuilders) + NewBuilders(AsSet(old(checkedInBuilders)), eventHistory.value)
      ensures !updated ==> checkedInBuilders == old(checkedInBuilders)
    {
      updated := false;
      if !isReadingEventLoading && eventHistory.Some? && isConnectedOptimism {
        var currentBuildersSet := AsSet(checkedInBuilders);
        var builders := NewBuilders(currentBuildersSet, eventHistory.value);
        if |builders| > 0 {
          checkedInBuilders := checkedInBuilders + builders;
          updated := true;
        }
      }
    }

    /** The gate effect, run on each new chain. */
    method OnChain(chainId: int)
      modifies this`isConnectedOptimism
      ensures Snapshot() == Step(old(Snapshot()), ChainChanged(chainId))
      ensures isConnectedOptimism <==> old(isConnectedOptimism) || chainId == OptimismChainId
      ensures old(isConnectedOptimism) ==> isConnectedOptimism
    {
      if chainId == OptimismChainId {
        isConnectedOptimism := true;
      }
    }
  }
}
