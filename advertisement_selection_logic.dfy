/**
 * AdvertisementSelectionLogic.selectAdvertisement: for every content of the
 * marketplace, the highest click-through-rate targeting group that evaluates
 * TRUE; then the content whose group has the highest rate overall.
 *
 * The two DAOs are parameters: `contentsFor` answers `contentDao.get(marketplaceId)`
 * and `groupsFor` answers `targetingGroupDao.get(content.getContentId())`. The
 * `TreeMap` ordered by descending rate is a map keyed by the rate, since its
 * comparator treats two groups with the same rate as the same key; each entry
 * holds the key group and the content put last under it.
 */
module AdSelection {
  import opened Java
  import opened PredicateResults
  import opened RequestContexts
  import opened TargetingPredicates
  import opened TargetingEvaluation

  // ---- one content's winning group (a pure stream) ----

  /** Ordered by `sortByCTR`: highest click-through rate first. */
  predicate SortedByCtr(groups: seq<TargetingGroup>)
  {
    forall i, j | 0 <= i < j < |groups| :: groups[i].clickThroughRate >= groups[j].clickThroughRate
  }

  /** No group of `groups` has a rate above `rate`. */
  predicate AtMost(groups: seq<TargetingGroup>, rate: real)
  {
    forall k | 0 <= k < |groups| :: groups[k].clickThroughRate <= rate
  }

  /** A group no lower than every group of a sorted list can go in front of it. */
  lemma PrependSorted(g: TargetingGroup, sorted: seq<TargetingGroup>)
    requires SortedByCtr(sorted) && AtMost(sorted, g.clickThroughRate)
    ensures SortedByCtr([g] + sorted)
  {
    var r := [g] + sorted;
    forall i, j | 0 <= i < j < |r| ensures r[i].clickThroughRate >= r[j].clickThroughRate {
      assert r[j] == sorted[j - 1];
      if i > 0 {
        assert r[i] == sorted[i - 1];
      }
    }
  }

  /** The bound of a list and of one more group is a bound of any rearrangement of them. */
  lemma AtMostRearranged(r: seq<TargetingGroup>, s: seq<TargetingGroup>, g: TargetingGroup, rate: real)
    requires multiset(r) == multiset(s) + multiset{g}
    requires AtMost(s, rate) && g.clickThroughRate <= rate
    ensures AtMost(r, rate)
  {
    forall k | 0 <= k < |r| ensures r[k].clickThroughRate <= rate {
      assert r[k] in multiset(r);
      if r[k] != g {
        assert r[k] in multiset(s);
        var j :| 0 <= j < |s| && s[j] == r[k];
      }
    }
  }

  /** Puts `g` before the first group whose rate is not higher, so equal rates keep their order. */
  function Insert(g: TargetingGroup, sorted: seq<TargetingGroup>): (r: seq<TargetingGroup>)
    requires SortedByCtr(sorted)
    ensures SortedByCtr(r)
    ensures multiset(r) == multiset(sorted) + multiset{g}
  {
    if sorted == [] || sorted[0].clickThroughRate <= g.clickThroughRate then
      PrependSorted(g, sorted);
      [g] + sorted
    else
      var tail := sorted[1..];
      var rest := Insert(g, tail);
      assert sorted == [sorted[0]] + tail;
      assert AtMost(tail, sorted[0].clickThroughRate) by {
        forall k | 0 <= k < |tail| ensures tail[k].clickThroughRate <= sorted[0].clickThroughRate {
          assert tail[k] == sorted[k + 1];
        }
      }
      AtMostRearranged(rest, tail, g, sorted[0].clickThroughRate);
      PrependSorted(sorted[0], rest);
      [sorted[0]] + rest
  }

  /** `stream().sorted(sortByCTR)`: a stable sort by descending click-through rate. */
  function SortByCtr(groups: seq<TargetingGroup>): (sorted: seq<TargetingGroup>)
    ensures SortedByCtr(sorted)
    ensures multiset(sorted) == multiset(groups)
  {
    if groups == [] then []
    else
      assert groups == [groups[0]] + groups[1..];
      Insert(groups[0], SortByCtr(groups[1..]))
  }

  /**
   * `filter(evaluate(group).isTrue()).findFirst()`: groups are evaluated in order
   * until one is TRUE; an evaluation that throws before then propagates.
   */
  function FirstTrue(groups: seq<TargetingGroup>, ctx: RequestContext, data: CustomerData): Result<Option<TargetingGroup>>
  {
    if groups == [] then Ok(None)
    else
      match EvaluateGroup(groups[0], ctx, data)
      case Err(e) => Err(e)
      case Ok(v) => if IsTrue(v) then Ok(Some(groups[0])) else FirstTrue(groups[1..], ctx, data)
  }

  /** The group a content competes with: the first TRUE group in descending rate order. */
  function WinningGroup(groups: seq<TargetingGroup>, ctx: RequestContext, data: CustomerData): Result<Option<TargetingGroup>>
  {
    FirstTrue(SortByCtr(groups), ctx, data)
  }

  predicate IsTrueGroup(g: TargetingGroup, ctx: RequestContext, data: CustomerData)
  {
    EvaluateGroup(g, ctx, data) == Ok(TRUE)
  }

  /** `findFirst` returns the first TRUE group, after groups that all evaluated without being TRUE. */
  lemma {:induction false} FirstTrueIsFirst(groups: seq<TargetingGroup>, ctx: RequestContext, data: CustomerData)
    ensures FirstTrue(groups, ctx, data).Ok? && FirstTrue(groups, ctx, data).value.Some? ==>
      exists i | 0 <= i < |groups| :: groups[i] == FirstTrue(groups, ctx, data).value.value
        && IsTrueGroup(groups[i], ctx, data)
        && forall j | 0 <= j < i :: !IsTrueGroup(groups[j], ctx, data)
    ensures FirstTrue(groups, ctx, data) == Ok(None) <==>
      forall j | 0 <= j < |groups| :: EvaluateGroup(groups[j], ctx, data).Ok? && !IsTrueGroup(groups[j], ctx, data)
  {
    if groups != [] {
      FirstTrueIsFirst(groups[1..], ctx, data);
      assert forall j | 1 <= j < |groups| :: groups[j] == groups[1..][j - 1];
      var r := FirstTrue(groups, ctx, data);
      if r.Ok? && r.value.Some? && EvaluateGroup(groups[0], ctx, data) != Ok(TRUE) {
        var i :| 0 <= i < |groups[1..]| && groups[1..][i] == r.value.value
          && IsTrueGroup(groups[1..][i], ctx, data)
          && forall j | 0 <= j < i :: !IsTrueGroup(groups[1..][j], ctx, data);
        assert groups[i + 1] == r.value.value;
      }
    }
  }

  /** Sorting keeps exactly the groups of the content. */
  lemma SortedMembers(groups: seq<TargetingGroup>)
    ensures forall h | h in groups :: h in SortByCtr(groups)
    ensures forall h | h in SortByCtr(groups) :: h in groups
  {
    var sorted := SortByCtr(groups);
    forall h | h in groups ensures h in sorted {
      assert h in multiset(sorted);
    }
    forall h | h in sorted ensures h in groups {
      assert h in multiset(groups);
    }
  }

  /** In a list sorted by rate, a TRUE group preceded only by groups that are not TRUE has the highest rate of the TRUE groups. */
  lemma FirstTrueOfSortedIsBest(sorted: seq<TargetingGroup>, i: int, ctx: RequestContext, data: CustomerData)
    requires SortedByCtr(sorted) && 0 <= i < |sorted|
    requires forall j | 0 <= j < i :: !IsTrueGroup(sorted[j], ctx, data)
    ensures forall h | h in sorted && IsTrueGroup(h, ctx, data) :: h.clickThroughRate <= sorted[i].clickThroughRate
  {
    forall h | h in sorted && IsTrueGroup(h, ctx, data)
      ensures h.clickThroughRate <= sorted[i].clickThroughRate
    {
      var j :| 0 <= j < |sorted| && sorted[j] == h;
    }
  }

  /** The winning group is a TRUE group of the content with the highest rate among its TRUE groups. */
  lemma WinningGroupIsBestTrueGroup(groups: seq<TargetingGroup>, ctx: RequestContext, data: CustomerData)
    requires WinningGroup(groups, ctx, data).Ok? && WinningGroup(groups, ctx, data).value.Some?
    ensures var g := WinningGroup(groups, ctx, data).value.value;
      g in groups && IsTrueGroup(g, ctx, data)
      && forall h | h in groups && IsTrueGroup(h, ctx, data) :: h.clickThroughRate <= g.clickThroughRate
  {
    var sorted := SortByCtr(groups);
    FirstTrueIsFirst(sorted, ctx, data);
    SortedMembers(groups);
    var g := FirstTrue(sorted, ctx, data).value.value;
    var i :| 0 <= i < |sorted| && sorted[i] == g
      && IsTrueGroup(sorted[i], ctx, data)
      && forall j | 0 <= j < i :: !IsTrueGroup(sorted[j], ctx, data);
    FirstTrueOfSortedIsBest(sorted, i, ctx, data);
  }

  /** A content has no winning group exactly when every one of its groups evaluates and none is TRUE. */
  lemma NoWinnerIffNoTrueGroup(groups: seq<TargetingGroup>, ctx: RequestContext, data: CustomerData)
    ensures WinningGroup(groups, ctx, data) == Ok(None) <==>
      forall h | h in groups :: EvaluateGroup(h, ctx, data).Ok? && !IsTrueGroup(h, ctx, data)
  {
    var sorted := SortByCtr(groups);
    FirstTrueIsFirst(sorted, ctx, data);
    SortedMembers(groups);
    assert forall h | h in sorted :: exists j | 0 <= j < |sorted| :: sorted[j] == h;
  }

  // ---- the eligible-advertisement TreeMap and the selection ----

  /** A TreeMap entry: the key group and the content stored under it. */
  type Entry<C> = (TargetingGroup, C)

  /** The TreeMap's entries in iteration order: strictly descending rates, one entry per rate. */
  predicate Descending<C>(entries: seq<Entry<C>>)
  {
    forall i, j | 0 <= i < j < |entries| :: entries[i].0.clickThroughRate > entries[j].0.clickThroughRate
  }

  /** `get`: the entry whose key has the given rate, if any. */
  function Get<C>(entries: seq<Entry<C>>, rate: real): (r: Option<Entry<C>>)
    ensures r.Some? ==> r.value in entries && r.value.0.clickThroughRate == rate
    ensures r.None? ==> forall i | 0 <= i < |entries| :: entries[i].0.clickThroughRate != rate
  {
    if entries == [] then None
    else if entries[0].0.clickThroughRate == rate then Some(entries[0])
    else Get(entries[1..], rate)
  }

  /** Every key of the entries has a rate below `rate`. */
  predicate Below<C>(entries: seq<Entry<C>>, rate: real)
  {
    forall k | 0 <= k < |entries| :: entries[k].0.clickThroughRate < rate
  }

  /** An entry whose rate is above every key can go in front of a descending map. */
  lemma PrependDescending<C>(e: Entry<C>, entries: seq<Entry<C>>)
    requires Descending(entries) && Below(entries, e.0.clickThroughRate)
    ensures Descending([e] + entries)
  {
    var r := [e] + entries;
    forall i, j | 0 <= i < j < |r| ensures r[i].0.clickThroughRate > r[j].0.clickThroughRate {
      assert r[j] == entries[j - 1];
      if i > 0 {
        assert r[i] == entries[i - 1];
      }
    }
  }

  /**
   * `eligibleAdvertisements.put(group, content)`: a key with the same rate already
   * present keeps its group and takes the new content; otherwise a new entry goes
   * in its place in the order. What a lookup then finds is stated by `PutGet`.
   */
  function Put<C>(entries: seq<Entry<C>>, group: TargetingGroup, content: C): (r: seq<Entry<C>>)
    requires Descending(entries)
    ensures Descending(r)
    ensures forall rate | Below(entries, rate) && group.clickThroughRate < rate :: Below(r, rate)
  {
    if entries == [] then [(group, content)]
    else
      var first := entries[0].0.clickThroughRate;
      var tail := entries[1..];
      assert forall k | 0 <= k < |tail| :: tail[k] == entries[k + 1];
      if first == group.clickThroughRate then
        PrependDescending((entries[0].0, content), tail);
        [(entries[0].0, content)] + tail
      else if first < group.clickThroughRate then
        PrependDescending((group, content), entries);
        [(group, content)] + entries
      else
        var rest := Put(tail, group, content);
        assert Below(tail, first);
        PrependDescending(entries[0], rest);
        [entries[0]] + rest
  }

  /**
   * After `put(group, content)` the group's rate is a key holding `content`, under
   * the key group that was already there if there was one; every other rate looks
   * up exactly what it did before.
   */
  lemma {:induction false} PutGet<C>(entries: seq<Entry<C>>, group: TargetingGroup, content: C)
    requires Descending(entries)
    ensures var r := Put(entries, group, content);
      Get(r, group.clickThroughRate).Some? && Get(r, group.clickThroughRate).value.1 == content
    ensures Get(entries, group.clickThroughRate).Some? ==>
      Get(Put(entries, group, content), group.clickThroughRate).value.0 == Get(entries, group.clickThroughRate).value.0
    ensures Get(entries, group.clickThroughRate).None? ==>
      Get(Put(entries, group, content), group.clickThroughRate).value.0 == group
    ensures forall rate | rate != group.clickThroughRate :: Get(Put(entries, group, content), rate) == Get(entries, rate)
  {
    if entries != [] && group.clickThroughRate < entries[0].0.clickThroughRate {
      PutGet(entries[1..], group, content);
    }
  }

  /** `firstKey()`: in a descending map the first entry has the highest rate of all keys. */
  lemma FirstKeyIsHighest<C>(entries: seq<Entry<C>>, rate: real)
    requires Descending(entries) && Get(entries, rate).Some?
    ensures entries != [] && rate <= entries[0].0.clickThroughRate
  {
    var j :| 0 <= j < |entries| && entries[j] == Get(entries, rate).value;
  }

  /** One iteration of the loop: `ifPresent(group -> put(group, content))`. */
  function Step<C>(entries: seq<Entry<C>>, winner: Option<TargetingGroup>, content: C): (r: seq<Entry<C>>)
    requires Descending(entries)
    ensures Descending(r)
  {
    if winner.Some? then Put(entries, winner.value, content) else entries
  }

  /** What a lookup finds after one iteration. */
  lemma StepGet<C>(entries: seq<Entry<C>>, winner: Option<TargetingGroup>, content: C)
    requires Descending(entries)
    ensures winner.Some? ==> Get(Step(entries, winner, content), winner.value.clickThroughRate).Some?
    ensures winner.Some? ==> Get(Step(entries, winner, content), winner.value.clickThroughRate).value.1 == content
    ensures forall rate | winner.None? || rate != winner.value.clickThroughRate :: Get(Step(entries, winner, content), rate) == Get(entries, rate)
  {
    if winner.Some? {
      PutGet(entries, winner.value, content);
    }
  }

  /** Each content's winning group, looking its groups up through the targeting-group DAO. */
  function WinnerOf<C>(groupsFor: C -> seq<TargetingGroup>, ctx: RequestContext, data: CustomerData): C -> Result<Option<TargetingGroup>>
  {
    content => WinningGroup(groupsFor(content), ctx, data)
  }

  /**
   * The map after the loop has visited `contents`, or the exception an evaluation
   * threw; `winnerOf` gives each content's winning group.
   */
  function EligibleAfter<C>(contents: seq<C>, winnerOf: C -> Result<Option<TargetingGroup>>): (r: Result<seq<Entry<C>>>)
    ensures r.Ok? ==> Descending(r.value)
  {
    if contents == [] then Ok([])
    else
      var last := contents[|contents| - 1];
      match EligibleAfter(contents[..|contents| - 1], winnerOf)
      case Err(e) => Err(e)
      case Ok(eligible) =>
        match winnerOf(last)
        case Err(e) => Err(e)
        case Ok(winner) => Ok(Step(eligible, winner, last))
  }

  /** selectAdvertisement as a value: `None` is the EmptyGeneratedAdvertisement. */
  function Select<C>(customerId: Option<string>, marketplaceId: Option<string>,
                     contentsFor: string -> seq<C>, groupsFor: C -> seq<TargetingGroup>, data: CustomerData)
    : Result<Option<C>>
  {
    if IsEmpty(marketplaceId) then Ok(None)
    else
      var ctx := NewRequestContext(customerId, marketplaceId);
      match EligibleAfter(contentsFor(marketplaceId.value), WinnerOf(groupsFor, ctx, data))
      case Err(e) => Err(e)
      case Ok(eligible) => if eligible == [] then Ok(None) else Ok(Some(eligible[0].1))
  }

  /** Once an evaluation has thrown, the remaining contents do not change the outcome. */
  lemma {:induction false} ErrorPersists<C>(contents: seq<C>, n: nat, winnerOf: C -> Result<Option<TargetingGroup>>)
    requires n <= |contents|
    requires EligibleAfter(contents[..n], winnerOf).Err?
    ensures EligibleAfter(contents, winnerOf) == EligibleAfter(contents[..n], winnerOf)
    decreases |contents| - n
  {
    if n < |contents| {
      var init := contents[..|contents| - 1];
      assert init[..n] == contents[..n];
      ErrorPersists(init, n, winnerOf);
    } else {
      assert contents[..n] == contents;
    }
  }

  /**
   * The loop of selectAdvertisement, putting each content's winning group into a
   * map ordered by descending rate, then rendering the content under the first key.
   */
  method SelectAdvertisement<C>(customerId: Option<string>, marketplaceId: Option<string>,
                                contentsFor: string -> seq<C>, groupsFor: C -> seq<TargetingGroup>, data: CustomerData)
    returns (ad: Result<Option<C>>)
    ensures ad == Select(customerId, marketplaceId, contentsFor, groupsFor, data)
  {
    if IsEmpty(marketplaceId) {
      return Ok(None);
    }
    var ctx := NewRequestContext(customerId, marketplaceId);
    var contents := contentsFor(marketplaceId.value);
    var winnerOf := WinnerOf(groupsFor, ctx, data);
    var eligible: seq<Entry<C>> := [];
    var i := 0;
    while i < |contents|
      invariant 0 <= i <= |contents|
      invariant EligibleAfter(contents[..i], winnerOf) == Ok(eligible)
    {
      var next := contents[..i + 1];
      assert next[..i] == contents[..i] && next[i] == contents[i];
      var winner := winnerOf(contents[i]);
      if winner.Err? {
        assert EligibleAfter(next, winnerOf) == Err(winner.error);
        ErrorPersists(contents, i + 1, winnerOf);
        return Err(winner.error);
      }
      eligible := Step(eligible, winner.value, contents[i]);
      assert EligibleAfter(next, winnerOf) == Ok(eligible);
      i := i + 1;
    }
    assert contents[..i] == contents;
    assert EligibleAfter(contents, winnerOf) == Ok(eligible);
    if eligible == [] {
      ad := Ok(None);
    } else {
      ad := Ok(Some(eligible[0].1));
    }
  }

  // ---- what the selection guarantees ----

  /** Content `contents[i]` has a winning group, with rate `rate`. */
  predicate WinsAt<C>(contents: seq<C>, i: int, rate: real, winnerOf: C -> Result<Option<TargetingGroup>>)
    requires 0 <= i < |contents|
  {
    var w := winnerOf(contents[i]);
    w.Ok? && w.value.Some? && w.value.value.clickThroughRate == rate
  }

  /** `contents[i]` is the last content in the list whose winning group has rate `rate`. */
  predicate LastWinsAt<C>(contents: seq<C>, i: int, rate: real, winnerOf: C -> Result<Option<TargetingGroup>>)
    requires 0 <= i < |contents|
  {
    WinsAt(contents, i, rate, winnerOf)
    && forall j | i < j < |contents| :: !WinsAt(contents, j, rate, winnerOf)
  }

  /** One step of the loop: the map after `contents` from the map after all but its last element. */
  lemma EligibleStep<C>(contents: seq<C>, winnerOf: C -> Result<Option<TargetingGroup>>)
    requires contents != [] && EligibleAfter(contents, winnerOf).Ok?
    ensures var n := |contents| - 1;
      var w := winnerOf(contents[n]);
      EligibleAfter(contents[..n], winnerOf).Ok? && w.Ok?
      && EligibleAfter(contents, winnerOf).value
           == Step(EligibleAfter(contents[..n], winnerOf).value, w.value, contents[n])
  {
  }

  /** When the loop completes, every content's winning group was computed without an exception. */
  lemma {:induction false} EligibleWinnersEvaluate<C>(contents: seq<C>, winnerOf: C -> Result<Option<TargetingGroup>>)
    requires EligibleAfter(contents, winnerOf).Ok?
    ensures forall i | 0 <= i < |contents| :: winnerOf(contents[i]).Ok?
  {
    if contents != [] {
      var n := |contents| - 1;
      EligibleStep(contents, winnerOf);
      StepGet(EligibleAfter(contents[..n], winnerOf).value, winnerOf(contents[n]).value, contents[n]);
      EligibleWinnersEvaluate(contents[..n], winnerOf);
      forall i | 0 <= i < |contents| ensures winnerOf(contents[i]).Ok? {
        if i < n {
          assert contents[..n][i] == contents[i];
        }
      }
    }
  }

  /** Every content's winning rate is a key of the map. */
  lemma {:induction false} EligibleHasEveryWinningRate<C>(contents: seq<C>, winnerOf: C -> Result<Option<TargetingGroup>>)
    requires EligibleAfter(contents, winnerOf).Ok?
    ensures forall i, rate | 0 <= i < |contents| && WinsAt(contents, i, rate, winnerOf) ::
      Get(EligibleAfter(contents, winnerOf).value, rate).Some?
  {
    if contents != [] {
      var n := |contents| - 1;
      var init := contents[..n];
      EligibleStep(contents, winnerOf);
      StepGet(EligibleAfter(contents[..n], winnerOf).value, winnerOf(contents[n]).value, contents[n]);
      EligibleHasEveryWinningRate(init, winnerOf);
      forall i, rate | 0 <= i < |contents| && WinsAt(contents, i, rate, winnerOf)
        ensures Get(EligibleAfter(contents, winnerOf).value, rate).Some?
      {
        if i < n {
          assert contents[i] == init[i];
          assert WinsAt(init, i, rate, winnerOf);
        }
      }
    }
  }

  /** Under every key of the map is the last content whose winning group has that rate. */
  lemma {:induction false} EligibleHoldsLastWinner<C>(contents: seq<C>, winnerOf: C -> Result<Option<TargetingGroup>>)
    requires EligibleAfter(contents, winnerOf).Ok?
    ensures var eligible := EligibleAfter(contents, winnerOf).value;
      forall k | Get(eligible, k).Some? :: exists i | 0 <= i < |contents| ::
        LastWinsAt(contents, i, k, winnerOf) && Get(eligible, k).value.1 == contents[i]
  {
    if contents != [] {
      var n := |contents| - 1;
      var init := contents[..n];
      EligibleStep(contents, winnerOf);
      StepGet(EligibleAfter(contents[..n], winnerOf).value, winnerOf(contents[n]).value, contents[n]);
      EligibleHoldsLastWinner(init, winnerOf);
      var before := EligibleAfter(init, winnerOf).value;
      var eligible := EligibleAfter(contents, winnerOf).value;
      var w := winnerOf(contents[n]);
      forall k | Get(eligible, k).Some?
        ensures exists i | 0 <= i < |contents| ::
          LastWinsAt(contents, i, k, winnerOf) && Get(eligible, k).value.1 == contents[i]
      {
        if w.value.Some? && k == w.value.value.clickThroughRate {
          assert LastWinsAt(contents, n, k, winnerOf);
        } else {
          assert Get(eligible, k) == Get(before, k);
          var i :| 0 <= i < n && LastWinsAt(init, i, k, winnerOf) && Get(before, k).value.1 == init[i];
          LastWinnerExtends(contents, i, k, winnerOf);
        }
      }
    }
  }

  /** A last winner of the prefix stays the last winner when the new content does not win with the same rate. */
  lemma LastWinnerExtends<C>(contents: seq<C>, i: int, k: real, winnerOf: C -> Result<Option<TargetingGroup>>)
    requires 0 <= i < |contents| - 1
    requires LastWinsAt(contents[..|contents| - 1], i, k, winnerOf)
    requires !WinsAt(contents, |contents| - 1, k, winnerOf)
    ensures LastWinsAt(contents, i, k, winnerOf)
  {
    var n := |contents| - 1;
    var init := contents[..n];
    assert contents[i] == init[i];
    forall j | i < j < |contents| ensures !WinsAt(contents, j, k, winnerOf) {
      if j < n {
        assert contents[j] == init[j];
        assert !WinsAt(init, j, k, winnerOf);
      }
    }
  }

  /** A null or empty marketplace id gives the empty advertisement, whatever the DAOs hold. */
  lemma EmptyMarketplaceGivesEmptyAd<C>(customerId: Option<string>, marketplaceId: Option<string>,
                                        contentsFor: string -> seq<C>, groupsFor: C -> seq<TargetingGroup>, data: CustomerData)
    requires IsEmpty(marketplaceId)
    ensures Select(customerId, marketplaceId, contentsFor, groupsFor, data) == Ok(None)
  {
  }

  /**
   * A selected content is one of the marketplace's contents; it has a winning
   * group whose rate is at least every other content's winning rate; and no later
   * content has a winning group with the same rate (on a tie, the last one wins).
   */
  lemma SelectedIsHighestRated<C>(customerId: Option<string>, marketplaceId: Option<string>,
                                  contentsFor: string -> seq<C>, groupsFor: C -> seq<TargetingGroup>, data: CustomerData)
    requires Select(customerId, marketplaceId, contentsFor, groupsFor, data).Ok?
    requires Select(customerId, marketplaceId, contentsFor, groupsFor, data).value.Some?
    ensures marketplaceId.Some?
    ensures var contents := contentsFor(marketplaceId.value);
      var ctx := NewRequestContext(customerId, marketplaceId);
      var chosen := Select(customerId, marketplaceId, contentsFor, groupsFor, data).value.value;
      exists i, rate | 0 <= i < |contents| ::
        contents[i] == chosen && LastWinsAt(contents, i, rate, WinnerOf(groupsFor, ctx, data))
        && forall j, other | 0 <= j < |contents| && WinsAt(contents, j, other, WinnerOf(groupsFor, ctx, data)) :: other <= rate
  {
    var contents := contentsFor(marketplaceId.value);
    var ctx := NewRequestContext(customerId, marketplaceId);
    EligibleHasEveryWinningRate(contents, WinnerOf(groupsFor, ctx, data));
    EligibleHoldsLastWinner(contents, WinnerOf(groupsFor, ctx, data));
    var eligible := EligibleAfter(contents, WinnerOf(groupsFor, ctx, data)).value;
    var rate := eligible[0].0.clickThroughRate;
    assert Get(eligible, rate) == Some(eligible[0]);
    var i :| 0 <= i < |contents| && LastWinsAt(contents, i, rate, WinnerOf(groupsFor, ctx, data)) && eligible[0].1 == contents[i];
    forall j, other | 0 <= j < |contents| && WinsAt(contents, j, other, WinnerOf(groupsFor, ctx, data)) ensures other <= rate {
      FirstKeyIsHighest(eligible, other);
    }
  }

  /** When no evaluation throws, an advertisement is chosen exactly when some content has a TRUE targeting group. */
  lemma NonEmptyIffSomeContentEligible<C>(customerId: Option<string>, marketplaceId: Option<string>,
                                          contentsFor: string -> seq<C>, groupsFor: C -> seq<TargetingGroup>, data: CustomerData)
    requires !IsEmpty(marketplaceId)
    requires Select(customerId, marketplaceId, contentsFor, groupsFor, data).Ok?
    ensures var contents := contentsFor(marketplaceId.value);
      var ctx := NewRequestContext(customerId, marketplaceId);
      (Select(customerId, marketplaceId, contentsFor, groupsFor, data).value.Some?
       <==> exists i | 0 <= i < |contents| :: exists g | g in groupsFor(contents[i]) :: IsTrueGroup(g, ctx, data))
  {
    var contents := contentsFor(marketplaceId.value);
    var ctx := NewRequestContext(customerId, marketplaceId);
    var eligible := EligibleAfter(contents, WinnerOf(groupsFor, ctx, data)).value;
    if exists i | 0 <= i < |contents| :: exists g | g in groupsFor(contents[i]) :: IsTrueGroup(g, ctx, data) {
      var i, g :| 0 <= i < |contents| && g in groupsFor(contents[i]) && IsTrueGroup(g, ctx, data);
      EligibleWinnersEvaluate(contents, WinnerOf(groupsFor, ctx, data));
      EligibleHasEveryWinningRate(contents, WinnerOf(groupsFor, ctx, data));
      NoWinnerIffNoTrueGroup(groupsFor(contents[i]), ctx, data);
      var w := WinningGroup(groupsFor(contents[i]), ctx, data);
      assert WinsAt(contents, i, w.value.value.clickThroughRate, WinnerOf(groupsFor, ctx, data));
      assert Get(eligible, w.value.value.clickThroughRate).Some?;
    }
    if eligible != [] {
      EligibleHoldsLastWinner(contents, WinnerOf(groupsFor, ctx, data));
      var k := eligible[0].0.clickThroughRate;
      assert Get(eligible, k).Some?;
      var i :| 0 <= i < |contents| && LastWinsAt(contents, i, k, WinnerOf(groupsFor, ctx, data)) && Get(eligible, k).value.1 == contents[i];
      var w := WinningGroup(groupsFor(contents[i]), ctx, data);
      WinningGroupIsBestTrueGroup(groupsFor(contents[i]), ctx, data);
      assert w.value.value in groupsFor(contents[i]) && IsTrueGroup(w.value.value, ctx, data);
    }
  }
}
