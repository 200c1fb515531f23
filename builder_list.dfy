/**
  The builder-list merge of the check-in dashboard, as pure functions.

  Each `CheckedIn` event record contributes its `args.builder`, which may be
  undefined (`None`). A batch is the event history as delivered by the
  event-history hook: `None` while it has no data, otherwise the records in
  delivery order.
 */
module BuilderList {

  import opened Wrappers

  /** The `builder` argument of one `CheckedIn` event record. */
  type BuilderArg = Option<string>

  /** The set built from the current list, against which the batch is filtered. */
  function AsSet(builders: seq<string>): (r: set<string>)
    ensures forall x :: x in r <==> x in builders
  {
    set x | x in builders
  }

  /** What one record contributes: its builder when it is defined and not yet known. */
  function Kept(current: set<string>, e: BuilderArg): seq<string>
  {
    if e.Some? && e.value !in current then [e.value] else []
  }

  /**
    The builders the filter keeps: every defined `builder` of the batch that
    is not in `current`, in batch order. Repeats inside the batch are kept.
   */
  function NewBuilders(current: set<string>, events: seq<BuilderArg>): (r: seq<string>)
    ensures |r| <= |events|
    ensures forall i :: 0 <= i < |r| ==> r[i] !in current
    decreases |events|
  {
    if events == [] then []
    else
      Kept(current, events[0]) + NewBuilders(current, events[1..])
  }

  /** What the effect does once its guard holds: append the new builders. */
  function Merged(builders: seq<string>, events: seq<BuilderArg>): seq<string>
  {
    var added := NewBuilders(AsSet(builders), events);
    if |added| > 0 then builders + added else builders
  }

  /** The guard of the effect: events not loading, a batch present, and the gate open. */
  predicate Fires(isReadingEventLoading: bool, eventHistory: Option<seq<BuilderArg>>, isConnectedOptimism: bool)
  {
    !isReadingEventLoading && eventHistory.Some? && isConnectedOptimism
  }

  /** The builder list after one run of the merge effect. */
  function EffectResult(builders: seq<string>, isReadingEventLoading: bool,
                        eventHistory: Option<seq<BuilderArg>>, isConnectedOptimism: bool): (r: seq<string>)
    ensures builders <= r
    ensures !Fires(isReadingEventLoading, eventHistory, isConnectedOptimism) ==> r == builders
    ensures Fires(isReadingEventLoading, eventHistory, isConnectedOptimism) ==>
              forall x :: x in r[|builders|..] <==> Some(x) in eventHistory.value && x !in builders
  {
    if Fires(isReadingEventLoading, eventHistory, isConnectedOptimism) then
      var events := eventHistory.value;
      var r := Merged(builders, events);
      assert r[|builders|..] == NewBuilders(AsSet(builders), events);
      forall x ensures x in r[|builders|..] <==> Some(x) in events && x !in builders {
        NewBuildersMember(AsSet(builders), events, x);
      }
      r
    else builders
  }

  /** A list without repeated entries. */
  predicate Distinct(s: seq<string>)
  {
    forall i, j :: 0 <= i < j < |s| ==> s[i] != s[j]
  }

  /** No two records of the batch carry the same defined builder. */
  predicate DistinctDefined(events: seq<BuilderArg>)
  {
    forall i, j :: 0 <= i < j < |events| && events[i].Some? ==> events[i] != events[j]
  }

  // ---------------------------------------------------------------------------
  // The filter

  /** A builder is kept exactly when some record defines it and it is not yet known. */
  lemma {:induction false} NewBuildersMember(current: set<string>, events: seq<BuilderArg>, x: string)
    ensures x in NewBuilders(current, events) <==> Some(x) in events && x !in current
    decreases |events|
  {
    if events != [] {
      NewBuildersMember(current, events[1..], x);
      assert events == [events[0]] + events[1..];
    }
  }

  /** The filter distributes over concatenation of batches: it keeps batch order. */
  lemma {:induction false} NewBuildersAppend(current: set<string>, a: seq<BuilderArg>, b: seq<BuilderArg>)
    ensures NewBuilders(current, a + b) == NewBuilders(current, a) + NewBuilders(current, b)
    decreases |a|
  {
    if a == [] {
      assert a + b == b;
    } else {
      assert (a + b)[0] == a[0];
      assert (a + b)[1..] == a[1..] + b;
      NewBuildersAppend(current, a[1..], b);
      var head := Kept(current, a[0]);
      assert NewBuilders(current, a + b) == head + NewBuilders(current, a[1..] + b);
      assert head + (NewBuilders(current, a[1..]) + NewBuilders(current, b))
          == (head + NewBuilders(current, a[1..])) + NewBuilders(current, b);
    }
  }

  /** A single record contributes its builder when defined and unknown, and nothing otherwise. */
  lemma NewBuildersSingle(current: set<string>, e: BuilderArg)
    ensures NewBuilders(current, [e]) == if e.Some? && e.value !in current then [e.value] else []
  {
  }

  /** If builder `x`'s record comes before builder `y`'s and both are new, `x` is appended before `y`. */
  lemma NewBuildersOrder(current: set<string>, events: seq<BuilderArg>, i: nat, j: nat)
    requires i < j < |events|
    requires events[i].Some? && events[i].value !in current
    requires events[j].Some? && events[j].value !in current
    ensures exists p, q :: 0 <= p < q < |NewBuilders(current, events)| &&
              NewBuilders(current, events)[p] == events[i].value &&
              NewBuilders(current, events)[q] == events[j].value
  {
    var front, back := events[..j], events[j..];
    assert events == front + back;
    NewBuildersAppend(current, front, back);
    assert front[i] == events[i];
    NewBuildersMember(current, front, events[i].value);
    var nf := NewBuilders(current, front);
    var p :| 0 <= p < |nf| && nf[p] == events[i].value;
    assert back[0] == events[j];
    var r := NewBuilders(current, events);
    assert r == nf + NewBuilders(current, back);
    assert r[p] == events[i].value && r[|nf|] == events[j].value;
  }

  /** Nothing is new exactly when every defined builder of the batch is already known. */
  lemma NoNewBuilders(current: set<string>, events: seq<BuilderArg>)
    ensures NewBuilders(current, events) == [] <==>
              forall i :: 0 <= i < |events| && events[i].Some? ==> events[i].value in current
  {
    var r := NewBuilders(current, events);
    if r != [] {
      NewBuildersMember(current, events, r[0]);
    } else {
      forall i | 0 <= i < |events| && events[i].Some?
        ensures events[i].value in current
      {
        NewBuildersMember(current, events, events[i].value);
      }
    }
  }

  /** A batch whose defined builders are pairwise distinct yields distinct new builders. */
  lemma {:induction false} NewBuildersDistinct(current: set<string>, events: seq<BuilderArg>)
    requires DistinctDefined(events)
    ensures Distinct(NewBuilders(current, events))
    decreases |events|
  {
    if events != [] {
      var tail := events[1..];
      assert DistinctDefined(tail) by {
        forall i, j | 0 <= i < j < |tail| && tail[i].Some? ensures tail[i] != tail[j] {
          assert tail[i] == events[i + 1] && tail[j] == events[j + 1];
        }
      }
      NewBuildersDistinct(current, tail);
      if events[0].Some? && events[0].value !in current {
        var x := events[0].value;
        forall k | 0 <= k < |tail| ensures tail[k] != Some(x) {
          assert tail[k] == events[k + 1];
        }
        NewBuildersMember(current, tail, x);
      }
    }
  }

  // ---------------------------------------------------------------------------
  // The merge

  /** The merge only appends: the old list is kept as a prefix, followed by the new builders. */
  lemma MergedAppends(builders: seq<string>, events: seq<BuilderArg>)
    ensures Merged(builders, events) == builders + NewBuilders(AsSet(builders), events)
  {
  }

  /** The merge is at a fixed point exactly when every defined builder of the batch is listed. */
  lemma MergedFixedPoint(builders: seq<string>, events: seq<BuilderArg>)
    ensures Merged(builders, events) == builders <==>
              forall i :: 0 <= i < |events| && events[i].Some? ==> events[i].value in builders
  {
    NoNewBuilders(AsSet(builders), events);
  }

  /** After a merge every defined builder of the batch is listed. */
  lemma MergedCovers(builders: seq<string>, events: seq<BuilderArg>)
    ensures forall i :: 0 <= i < |events| && events[i].Some? ==> events[i].value in Merged(builders, events)
  {
    forall i | 0 <= i < |events| && events[i].Some?
      ensures events[i].value in Merged(builders, events)
    {
      NewBuildersMember(AsSet(builders), events, events[i].value);
    }
  }

  /** Merging the same batch a second time changes nothing. */
  lemma MergedIdempotent(builders: seq<string>, events: seq<BuilderArg>)
    ensures Merged(Merged(builders, events), events) == Merged(builders, events)
  {
    MergedCovers(builders, events);
    MergedFixedPoint(Merged(builders, events), events);
  }

  /** Re-running the effect on its own result, with the same inputs, changes nothing. */
  lemma EffectIdempotent(builders: seq<string>, isReadingEventLoading: bool,
                         eventHistory: Option<seq<BuilderArg>>, isConnectedOptimism: bool)
    ensures var once := EffectResult(builders, isReadingEventLoading, eventHistory, isConnectedOptimism);
            EffectResult(once, isReadingEventLoading, eventHistory, isConnectedOptimism) == once
  {
    if Fires(isReadingEventLoading, eventHistory, isConnectedOptimism) {
      MergedIdempotent(builders, eventHistory.value);
    }
  }

  lemma DistinctConcat(a: seq<string>, b: seq<string>)
    ensures Distinct(a + b) <==> Distinct(a) && Distinct(b) && forall x :: x in a ==> x !in b
  {
    var ab := a + b;
    if Distinct(ab) {
      assert Distinct(a) by {
        forall i, j | 0 <= i < j < |a| ensures a[i] != a[j] { assert ab[i] == a[i] && ab[j] == a[j]; }
      }
      assert Distinct(b) by {
        forall i, j | 0 <= i < j < |b| ensures b[i] != b[j] { assert ab[|a| + i] == b[i] && ab[|a| + j] == b[j]; }
      }
      forall i, j | 0 <= i < |a| && 0 <= j < |b| ensures a[i] != b[j] {
        assert ab[i] == a[i] && ab[|a| + j] == b[j];
      }
    } else if Distinct(a) && Distinct(b) && forall x :: x in a ==> x !in b {
      forall i, j | 0 <= i < j < |ab| ensures ab[i] != ab[j] {
        if j < |a| {
          assert ab[i] == a[i] && ab[j] == a[j];
        } else if |a| <= i {
          assert ab[i] == b[i - |a|] && ab[j] == b[j - |a|];
        } else {
          assert ab[i] == a[i] && ab[j] == b[j - |a|];
          assert a[i] in a;
        }
      }
    }
  }

  /**
    A duplicate-free list stays duplicate-free after a merge exactly when the
    batch's new builders are pairwise distinct.
   */
  lemma MergedDistinct(builders: seq<string>, events: seq<BuilderArg>)
    requires Distinct(builders)
    ensures Distinct(Merged(builders, events)) <==> Distinct(NewBuilders(AsSet(builders), events))
  {
    var added := NewBuilders(AsSet(builders), events);
    DistinctConcat(builders, added);
  }

  /** So a batch with pairwise distinct defined builders keeps the list duplicate-free. */
  lemma MergedKeepsDistinct(builders: seq<string>, events: seq<BuilderArg>)
    requires Distinct(builders) && DistinctDefined(events)
    ensures Distinct(Merged(builders, events))
  {
    NewBuildersDistinct(AsSet(builders), events);
    MergedDistinct(builders, events);
  }

  /** A batch that repeats a new builder appends it twice: uniqueness is not unconditional. */
  lemma RepeatedNewBuilderAppendedTwice(builders: seq<string>, x: string)
    requires x !in builders
    ensures Merged(builders, [Some(x), Some(x)]) == builders + [x, x]
    ensures !Distinct(Merged(builders, [Some(x), Some(x)]))
  {
    var batch := [Some(x), Some(x)];
    assert batch[1..] == [Some(x)] && batch[1..][1..] == [];
    assert NewBuilders(AsSet(builders), batch) == [x, x];
    var r := Merged(builders, batch);
    assert r[|builders|] == r[|builders| + 1];
  }

  /** Undefined builders are dropped: `[undefined, "0xABC"]` into an empty list gives `["0xABC"]`. */
  lemma UndefinedBuilderDropped()
    ensures EffectResult([], false, Some([None, Some("0xABC")]), true) == ["0xABC"]
  {
  }
}
