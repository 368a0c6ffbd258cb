/**
 * The platform-selection page: the pincode check and the "Compare Prices" handler,
 * which saves the selection, reads the user's grocery list, clears the previous
 * results and asks the scraping function for prices platform by platform.
 *
 * The store and the function call are not modelled; what they answer is an input
 * (`Backend`), and every request the handler makes is recorded, in order, in the
 * `calls` the handler returns.
 */
module ComparePrices {
  import opened Common

  // ---------------------------------------------------------------------------
  // Pincode pattern ^[1-9][0-9]{5}$
  // ---------------------------------------------------------------------------

  /** A bracketed character range of a regular expression, `[lo-hi]`. */
  datatype CharRange = CharRange(lo: char, hi: char)

  predicate InRange(c: CharRange, ch: char)
  {
    c.lo <= ch <= c.hi
  }

  /** The pincode pattern with `{5}` written out: one `[1-9]`, then five `[0-9]`. */
  const PincodePattern: seq<CharRange> :=
    [CharRange('1', '9'), Digit, Digit, Digit, Digit, Digit]

  const Digit: CharRange := CharRange('0', '9')

  /** A pattern of single-character ranges anchored with `^` and `$` matched against `s`. */
  function MatchesAnchored(pattern: seq<CharRange>, s: string): (ok: bool)
    ensures ok <==> |s| == |pattern| && forall i :: 0 <= i < |s| ==> InRange(pattern[i], s[i])
  {
    if pattern == [] then s == []
    else if s == [] then false
    else
      var rest := MatchesAnchored(pattern[1..], s[1..]);
      assert forall i :: 1 <= i < |s| ==> s[1..][i - 1] == s[i];
      InRange(pattern[0], s[0]) && rest
  }

  /** `validatePincode`: the pattern test of the pincode. */
  function ValidatePincode(pincode: string): (ok: bool)
    ensures ok <==>
      && |pincode| == 6
      && '1' <= pincode[0] <= '9'
      && forall i :: 1 <= i < 6 ==> '0' <= pincode[i] <= '9'
  {
    assert |PincodePattern| == 6 && PincodePattern[0] == CharRange('1', '9');
    assert forall i :: 1 <= i < 6 ==> PincodePattern[i] == CharRange('0', '9');
    MatchesAnchored(PincodePattern, pincode)
  }

  /** A valid Indian pincode is accepted; a short one, a leading zero or letters are not. */
  lemma PincodeExamples()
    ensures ValidatePincode("400001")
    ensures !ValidatePincode("04000") && !ValidatePincode("004001") && !ValidatePincode("abcdef")
    ensures !ValidatePincode("4000011")
  {
    assert "004001"[0] == '0';
    assert "abcdef"[0] == 'a';
  }

  // ---------------------------------------------------------------------------
  // The handler
  // ---------------------------------------------------------------------------

  /** Every request the handler makes to the store or to the scraping function. */
  datatype Call =
    | GetUser
    | InsertSelection(userId: UserId, pincode: string, platformIds: seq<PlatformId>)
    | FetchItemNames(userId: UserId)
    | DeleteResults(userId: UserId)
    | InvokeScrape(pincode: string, groceryItems: seq<string>, platformId: PlatformId)

  /** The answer to the `grocery_items` query: names, no data, or an error. */
  datatype ItemsResponse = ItemRows(names: seq<string>) | NullRows | ItemsError

  /** The answer of `functions.invoke`: an error, or data whose `success` flag may be set. */
  datatype InvokeResponse = InvokeError | InvokeData(success: bool)

  /**
   * What the outside world answers: the signed-in user, whether the selection
   * insert and the delete fail, the grocery query, and one `invoke` answer per
   * entry of the selection (used only for the entries that are invoked).
   */
  datatype Backend = Backend(
    user: Option<UserId>,
    selectionInsertFails: bool,
    items: ItemsResponse,
    deleteFails: bool,
    invoke: seq<InvokeResponse>)

  /** The step whose failure was thrown to the handler's `catch`. */
  datatype Abort = NoUser | SelectionInsertFailed | ItemsFetchFailed | DeleteFailed

  /** How a run ends; only `Navigated` reaches the comparison-results page. */
  datatype Outcome =
    | RejectedPincode
    | RejectedNoPlatform
    | StoppedNoItems
    | Aborted(reason: Abort)
    | Navigated

  /** Which branch each invocation took: the error branch or the success check. */
  datatype ScrapeReport =
    | ScrapeFailed(platformId: PlatformId)
    | ScrapeSucceeded(platformId: PlatformId)
    | ScrapeUnconfirmed(platformId: PlatformId)

  datatype RunResult = RunResult(outcome: Outcome, calls: seq<Call>, reports: seq<ScrapeReport>)

  /** `platforms.find(p => p.id === id)`. */
  function FindPlatform(platforms: seq<Platform>, id: PlatformId): (r: Option<Platform>)
    ensures r.Some? ==> r.value in platforms && r.value.id == id
    ensures r.None? <==> forall p :: p in platforms ==> p.id != id
  {
    if platforms == [] then None
    else if platforms[0].id == id then Some(platforms[0])
    else FindPlatform(platforms[1..], id)
  }

  /** Whether `platforms.find` finds a platform with the id. */
  predicate IsKnown(platforms: seq<Platform>, id: PlatformId)
  {
    FindPlatform(platforms, id).Some?
  }

  /** The selected ids whose platform is found, in selection order. */
  function KnownIds(selected: seq<PlatformId>, platforms: seq<Platform>): (r: seq<PlatformId>)
    ensures |r| <= |selected|
  {
    if selected == [] then []
    else
      var last := selected[|selected| - 1];
      KnownIds(selected[..|selected| - 1], platforms)
        + (if IsKnown(platforms, last) then [last] else [])
  }

  /** Skipping unknown ids distributes over concatenation, so the kept ids stay in selection order. */
  lemma {:induction false} KnownIdsAppend(a: seq<PlatformId>, b: seq<PlatformId>, platforms: seq<Platform>)
    ensures KnownIds(a + b, platforms) == KnownIds(a, platforms) + KnownIds(b, platforms)
    decreases |b|
  {
    if b == [] {
      assert a + b == a;
    } else {
      var n := |b| - 1;
      assert (a + b)[..|a + b| - 1] == a + b[..n];
      KnownIdsAppend(a, b[..n], platforms);
    }
  }

  /** Each known id is invoked as often as it is selected; an unknown id never is. */
  lemma {:induction false} KnownIdsCount(selected: seq<PlatformId>, platforms: seq<Platform>, x: PlatformId)
    ensures multiset(KnownIds(selected, platforms))[x] == if IsKnown(platforms, x) then multiset(selected)[x] else 0
  {
    if selected != [] {
      var n := |selected| - 1;
      KnownIdsCount(selected[..n], platforms, x);
      assert selected == selected[..n] + [selected[n]];
    }
  }

  /** One scrape invocation per id, each with the same pincode and item names. */
  function Invocations(ids: seq<PlatformId>, pincode: string, names: seq<string>): (r: seq<Call>)
    ensures |r| == |ids|
    ensures forall k :: 0 <= k < |r| ==> r[k] == InvokeScrape(pincode, names, ids[k])
  {
    if ids == [] then []
    else Invocations(ids[..|ids| - 1], pincode, names) + [InvokeScrape(pincode, names, ids[|ids| - 1])]
  }

  function ReportOf(id: PlatformId, response: InvokeResponse): ScrapeReport
  {
    match response
    case InvokeError => ScrapeFailed(id)
    case InvokeData(success) => if success then ScrapeSucceeded(id) else ScrapeUnconfirmed(id)
  }

  /** One report per invoked platform, in invocation order. */
  function Reports(selected: seq<PlatformId>, platforms: seq<Platform>, responses: seq<InvokeResponse>): (r: seq<ScrapeReport>)
    requires |responses| == |selected|
    ensures |r| == |KnownIds(selected, platforms)|
    ensures forall k :: 0 <= k < |r| ==> r[k].platformId == KnownIds(selected, platforms)[k]
  {
    if selected == [] then []
    else
      var n := |selected| - 1;
      Reports(selected[..n], platforms, responses[..n])
        + (if IsKnown(platforms, selected[n]) then [ReportOf(selected[n], responses[n])] else [])
  }

  /** The calls made before the platform loop once the grocery list is non-empty. */
  function SetupCalls(user: UserId, pincode: string, selected: seq<PlatformId>): seq<Call>
  {
    [GetUser, InsertSelection(user, pincode, selected), FetchItemNames(user), DeleteResults(user)]
  }

  /** The whole run of `handleComparePrices` as one value: the two checks, then the `try` block. */
  function Run(pincode: string, selected: seq<PlatformId>, platforms: seq<Platform>, b: Backend): RunResult
    requires |b.invoke| == |selected|
  {
    if !ValidatePincode(pincode) then RunResult(RejectedPincode, [], [])
    else if |selected| == 0 then RunResult(RejectedNoPlatform, [], [])
    else TryBlock(pincode, selected, platforms, b)
  }

  /** The `try` block: each failing step is thrown to `catch`, which does not navigate. */
  function TryBlock(pincode: string, selected: seq<PlatformId>, platforms: seq<Platform>, b: Backend): RunResult
    requires |b.invoke| == |selected|
  {
    if b.user.None? then RunResult(Aborted(NoUser), [GetUser], [])
    else
      var setup := SetupCalls(b.user.value, pincode, selected);
      if b.selectionInsertFails then RunResult(Aborted(SelectionInsertFailed), setup[..2], [])
      else if b.items.ItemsError? then RunResult(Aborted(ItemsFetchFailed), setup[..3], [])
      else if b.items.NullRows? || b.items.names == [] then RunResult(StoppedNoItems, setup[..3], [])
      else if b.deleteFails then RunResult(Aborted(DeleteFailed), setup, [])
      else
        RunResult(Navigated,
          setup + Invocations(KnownIds(selected, platforms), pincode, b.items.names),
          Reports(selected, platforms, b.invoke))
  }

  /**
   * The `for (const platformId of selectedPlatforms)` loop: an id without a known
   * platform is skipped, every other one is invoked, and an error answer only
   * moves on to the next id.
   */
  method ScrapeSelectedPlatforms(pincode: string, names: seq<string>, selected: seq<PlatformId>,
                                 platforms: seq<Platform>, responses: seq<InvokeResponse>)
    returns (calls: seq<Call>, reports: seq<ScrapeReport>)
    requires |responses| == |selected|
    ensures calls == Invocations(KnownIds(selected, platforms), pincode, names)
    ensures reports == Reports(selected, platforms, responses)
  {
    calls, reports := [], [];
    for i := 0 to |selected|
      invariant calls == Invocations(KnownIds(selected[..i], platforms), pincode, names)
      invariant reports == Reports(selected[..i], platforms, responses[..i])
    {
      assert selected[..i + 1][..i] == selected[..i];
      assert responses[..i + 1][..i] == responses[..i];
      ghost var known := KnownIds(selected[..i + 1], platforms);
      var platform := FindPlatform(platforms, selected[i]);
      if platform.None? {
        assert known == KnownIds(selected[..i], platforms);
        continue;
      }
      assert known == KnownIds(selected[..i], platforms) + [selected[i]];
      calls := calls + [InvokeScrape(pincode, names, selected[i])];
      var response := responses[i];
      if response.InvokeError? {
        reports := reports + [ScrapeFailed(selected[i])];
        continue;
      }
      if response.success {
        reports := reports + [ScrapeSucceeded(selected[i])];
      } else {
        reports := reports + [ScrapeUnconfirmed(selected[i])];
      }
    }
    assert selected[..|selected|] == selected;
    assert responses[..|selected|] == responses;
  }

  /** `handleComparePrices`, step by step, with the loop over the selected platforms. */
  method HandleComparePrices(pincode: string, selected: seq<PlatformId>, platforms: seq<Platform>, b: Backend)
    returns (outcome: Outcome, calls: seq<Call>, reports: seq<ScrapeReport>)
    requires |b.invoke| == |selected|
    ensures RunResult(outcome, calls, reports) == Run(pincode, selected, platforms, b)
  {
    calls, reports := [], [];
    if !ValidatePincode(pincode) {
      outcome := RejectedPincode;
      return;
    }
    if |selected| == 0 {
      outcome := RejectedNoPlatform;
      return;
    }
    outcome, calls, reports := RunTryBlock(pincode, selected, platforms, b);
  }

  /** The `try` block of `handleComparePrices`. */
  method RunTryBlock(pincode: string, selected: seq<PlatformId>, platforms: seq<Platform>, b: Backend)
    returns (outcome: Outcome, calls: seq<Call>, reports: seq<ScrapeReport>)
    requires |b.invoke| == |selected|
    ensures RunResult(outcome, calls, reports) == TryBlock(pincode, selected, platforms, b)
  {
    calls, reports := [GetUser], [];
    if b.user.None? {
      outcome := Aborted(NoUser);
      return;
    }
    var user := b.user.value;
    calls := calls + [InsertSelection(user, pincode, selected)];
    if b.selectionInsertFails {
      outcome := Aborted(SelectionInsertFailed);
      return;
    }
    calls := calls + [FetchItemNames(user)];
    if b.items.ItemsError? {
      outcome := Aborted(ItemsFetchFailed);
      return;
    }
    if b.items.NullRows? || |b.items.names| == 0 {
      outcome := StoppedNoItems;
      return;
    }
    var names := b.items.names;
    calls := calls + [DeleteResults(user)];
    if b.deleteFails {
      outcome := Aborted(DeleteFailed);
      return;
    }
    var invoked, scraped := ScrapeSelectedPlatforms(pincode, names, selected, platforms, b.invoke);
    calls, reports := calls + invoked, scraped;
    outcome := Navigated;
  }

  // ---------------------------------------------------------------------------
  // Properties of a run
  // ---------------------------------------------------------------------------

  /** An invalid pincode is reported first, even with no platform selected; neither rejection calls out. */
  lemma RejectionsCallNothing(pincode: string, selected: seq<PlatformId>, platforms: seq<Platform>, b: Backend)
    requires |b.invoke| == |selected|
    ensures !ValidatePincode(pincode) ==> Run(pincode, selected, platforms, b).outcome == RejectedPincode
    ensures ValidatePincode(pincode) && selected == [] ==> Run(pincode, selected, platforms, b).outcome == RejectedNoPlatform
    ensures Run(pincode, selected, platforms, b).outcome in {RejectedPincode, RejectedNoPlatform} <==>
      Run(pincode, selected, platforms, b).calls == []
  {
  }

  /** An empty (or missing) grocery list stops after the selection is saved: nothing is deleted or scraped. */
  lemma EmptyListStopsBeforeDelete(pincode: string, selected: seq<PlatformId>, platforms: seq<Platform>, b: Backend)
    requires |b.invoke| == |selected|
    requires ValidatePincode(pincode) && selected != [] && b.user.Some? && !b.selectionInsertFails
    requires b.items.NullRows? || b.items == ItemRows([])
    ensures var r := Run(pincode, selected, platforms, b);
      && r.outcome == StoppedNoItems
      && r.calls[1] == InsertSelection(b.user.value, pincode, selected)
      && forall c :: c in r.calls ==> !c.DeleteResults? && !c.InvokeScrape?
  {
  }

  /** The previous results are deleted before the first scrape invocation. */
  lemma DeleteBeforeScrape(pincode: string, selected: seq<PlatformId>, platforms: seq<Platform>, b: Backend, j: nat)
    requires |b.invoke| == |selected|
    requires j < |Run(pincode, selected, platforms, b).calls|
    requires Run(pincode, selected, platforms, b).calls[j].InvokeScrape?
    ensures 3 < j && Run(pincode, selected, platforms, b).calls[3] == DeleteResults(b.user.value)
  {
  }

  /**
   * A run that reaches the loop invokes the scraper once per selected id whose
   * platform is known, in selection order, each time with the same pincode and
   * the full list of item names; unknown ids are skipped.
   */
  lemma InvocationsFollowSelection(pincode: string, selected: seq<PlatformId>, platforms: seq<Platform>, b: Backend)
    requires |b.invoke| == |selected|
    requires Run(pincode, selected, platforms, b).outcome == Navigated
    ensures var calls := Run(pincode, selected, platforms, b).calls;
      && b.items.ItemRows? && b.user.Some?
      && |calls| == 4 + |KnownIds(selected, platforms)|
      && calls[..4] == SetupCalls(b.user.value, pincode, selected)
      && (forall k :: 4 <= k < |calls| ==>
            calls[k] == InvokeScrape(pincode, b.items.names, KnownIds(selected, platforms)[k - 4]))
  {
  }

  /** When every selected id is known, the invocations follow the selection exactly. */
  lemma {:induction false} KnownIdsAllKnown(selected: seq<PlatformId>, platforms: seq<Platform>)
    requires forall k :: 0 <= k < |selected| ==> IsKnown(platforms, selected[k])
    ensures KnownIds(selected, platforms) == selected
  {
    if selected != [] {
      var n := |selected| - 1;
      assert forall k :: 0 <= k < n ==> selected[..n][k] == selected[k];
      KnownIdsAllKnown(selected[..n], platforms);
      assert selected == selected[..n] + [selected[n]];
    }
  }

  /**
   * A scrape error for one platform stops nothing: the calls and the outcome do
   * not depend on what the invocations answer, only the reports do.
   */
  lemma ScrapeErrorsDoNotStopRun(pincode: string, selected: seq<PlatformId>, platforms: seq<Platform>, b: Backend, responses: seq<InvokeResponse>)
    requires |b.invoke| == |selected| && |responses| == |selected|
    ensures var r := Run(pincode, selected, platforms, b);
      var r' := Run(pincode, selected, platforms, b.(invoke := responses));
      r.outcome == r'.outcome && r.calls == r'.calls
  {
  }

  /**
   * The page navigates to the results exactly when the pincode is valid, a
   * platform is selected, there is a user, the insert, the list query and the
   * delete succeed and the list is non-empty; every abort stops without navigation.
   */
  lemma NavigatesExactlyWhenSetupSucceeds(pincode: string, selected: seq<PlatformId>, platforms: seq<Platform>, b: Backend)
    requires |b.invoke| == |selected|
    ensures Run(pincode, selected, platforms, b).outcome == Navigated <==>
      && ValidatePincode(pincode) && selected != []
      && b.user.Some? && !b.selectionInsertFails
      && b.items.ItemRows? && b.items.names != [] && !b.deleteFails
    ensures b.user.None? && ValidatePincode(pincode) && selected != [] ==>
      Run(pincode, selected, platforms, b).outcome == Aborted(NoUser)
  {
  }
}
