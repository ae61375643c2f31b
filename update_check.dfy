/**
 * `checkForAppUpdate`: answer from a one-hour cache, or fetch the release
 * list, drop drafts (and pre-releases unless asked for), take the first
 * release left and offer it when its tag differs from the running version.
 *
 * The clock, the environment's release tag and platform, the store's two
 * keys and the fetched response are parameters; the function returns what
 * the promise settles to together with the store afterwards.
 */
module UpdateCheck {

  import opened Types

  const CacheWindow := 1000 * 60 * 60

  datatype ReleaseAsset = ReleaseAsset(browserDownloadUrl: string)

  /** One entry of the releases API response. */
  datatype Release = Release(
    id: int, name: string, tagName: string, draft: bool, prerelease: bool,
    publishedAt: string, body: string, assets: seq<ReleaseAsset>)

  datatype Asset = Asset(platform: string, browserDownloadUrl: string)

  datatype UpdateDetails = UpdateDetails(
    name: string, id: int, preRelease: bool, publishedAt: string, body: string,
    platformAsset: Option<Asset>, assets: seq<Asset>)

  /** `latestUpdate` (`None` for `false` or nothing stored) and `lastUpdateCheck` (0 when unset). */
  datatype UpdateStore = UpdateStore(latestUpdate: Option<UpdateDetails>, lastUpdateCheck: int)

  /** The response: a failed request, a body that is not an array, or the release array. */
  datatype FetchResult = NetworkError | NotArray | Releases(releases: seq<Release>)

  /** How the returned promise settles: with update details, with `false` (`None`), or by throwing. */
  datatype Outcome = Resolved(update: Option<UpdateDetails>) | Rejected

  datatype CheckResult = CheckResult(outcome: Outcome, store: UpdateStore, fetched: bool)

  // ---------------------------------------------------------------------------
  // Release selection.

  function DropDrafts(rs: seq<Release>): (r: seq<Release>)
    ensures forall x :: x in r <==> x in rs && !x.draft
    decreases |rs|
  {
    if |rs| == 0 then []
    else
      assert forall x :: x in rs <==> x == rs[0] || x in rs[1..];
      if rs[0].draft == false then [rs[0]] + DropDrafts(rs[1..]) else DropDrafts(rs[1..])
  }

  function DropPreReleases(rs: seq<Release>): (r: seq<Release>)
    ensures forall x :: x in r <==> x in rs && !x.prerelease
    decreases |rs|
  {
    if |rs| == 0 then []
    else
      assert forall x :: x in rs <==> x == rs[0] || x in rs[1..];
      if rs[0].prerelease == false then [rs[0]] + DropPreReleases(rs[1..]) else DropPreReleases(rs[1..])
  }

  /** A release the check may offer. */
  predicate Eligible(r: Release, preRelease: bool)
  {
    !r.draft && (preRelease || !r.prerelease)
  }

  /** The list left after both filters. */
  function Candidates(rs: seq<Release>, preRelease: bool): (c: seq<Release>)
    ensures forall x :: x in c <==> x in rs && Eligible(x, preRelease)
  {
    var noDrafts := DropDrafts(rs);
    if !preRelease then DropPreReleases(noDrafts) else noDrafts
  }

  /** `updateDataArray[0]` after filtering. */
  function Selected(rs: seq<Release>, preRelease: bool): Option<Release>
  {
    var c := Candidates(rs, preRelease);
    if |c| > 0 then Some(c[0]) else None
  }

  /** Release `i` is eligible and none before it is. */
  predicate FirstEligibleAt(rs: seq<Release>, i: int, preRelease: bool)
  {
    0 <= i < |rs| && Eligible(rs[i], preRelease) && forall j :: 0 <= j < i ==> !Eligible(rs[j], preRelease)
  }

  /** Both filters work release by release. */
  lemma CandidatesStep(rs: seq<Release>, preRelease: bool)
    requires |rs| > 0
    ensures Candidates(rs, preRelease)
      == (if Eligible(rs[0], preRelease) then [rs[0]] else []) + Candidates(rs[1..], preRelease)
  {
    var tail := rs[1..];
    if !rs[0].draft {
      assert DropDrafts(rs) == [rs[0]] + DropDrafts(tail);
      assert ([rs[0]] + DropDrafts(tail))[1..] == DropDrafts(tail);
    }
  }

  /** The selected release is the first eligible one in the response; there is none exactly when no release is eligible. */
  lemma {:induction false} SelectedIsFirstEligible(rs: seq<Release>, preRelease: bool)
    ensures Selected(rs, preRelease).None? <==> forall i :: 0 <= i < |rs| ==> !Eligible(rs[i], preRelease)
    ensures Selected(rs, preRelease).Some? ==>
      exists i :: FirstEligibleAt(rs, i, preRelease) && rs[i] == Selected(rs, preRelease).value
    decreases |rs|
  {
    if |rs| > 0 {
      var tail := rs[1..];
      SelectedIsFirstEligible(tail, preRelease);
      CandidatesStep(rs, preRelease);
      assert forall i :: 1 <= i < |rs| ==> rs[i] == tail[i - 1];
      if Eligible(rs[0], preRelease) {
        assert FirstEligibleAt(rs, 0, preRelease);
      } else {
        assert Selected(rs, preRelease) == Selected(tail, preRelease);
        if Selected(tail, preRelease).Some? {
          var i :| FirstEligibleAt(tail, i, preRelease) && tail[i] == Selected(tail, preRelease).value;
          assert FirstEligibleAt(rs, i + 1, preRelease);
        }
      }
    }
  }

  // ---------------------------------------------------------------------------
  // The offered details.

  /** `platformFromAsset`: every asset is labelled 'darwin'. */
  function PlatformFromAsset(a: ReleaseAsset): string
  {
    "darwin"
  }

  function MapAssets(assets: seq<ReleaseAsset>): (r: seq<Asset>)
    ensures |r| == |assets|
    ensures forall i :: 0 <= i < |r| ==> r[i] == Asset("darwin", assets[i].browserDownloadUrl)
  {
    seq(|assets|, i requires 0 <= i < |assets| => Asset(PlatformFromAsset(assets[i]), assets[i].browserDownloadUrl))
  }

  /** `assets.find(asset => asset.platform === platform)`. */
  function FindPlatformAsset(assets: seq<Asset>, platform: string): (r: Option<Asset>)
    ensures r.Some? ==> r.value in assets && r.value.platform == platform
    ensures r.None? ==> forall a :: a in assets ==> a.platform != platform
    decreases |assets|
  {
    if |assets| == 0 then None
    else if assets[0].platform == platform then Some(assets[0])
    else FindPlatformAsset(assets[1..], platform)
  }

  function Details(r: Release, platform: string): UpdateDetails
  {
    var assets := MapAssets(r.assets);
    UpdateDetails(r.name, r.id, r.prerelease, r.publishedAt, r.body, FindPlatformAsset(assets, platform), assets)
  }

  /** No asset is dropped, and the platform asset is the first one on macOS and absent elsewhere. */
  lemma DetailsKeepAllAssets(r: Release, platform: string)
    ensures |Details(r, platform).assets| == |r.assets|
    ensures platform == "darwin" && |r.assets| > 0 ==> Details(r, platform).platformAsset == Some(Details(r, platform).assets[0])
    ensures platform != "darwin" ==> Details(r, platform).platformAsset.None?
  {
  }

  // ---------------------------------------------------------------------------
  // The whole check.

  /** The cache answers: a check less than an hour ago, and not never. */
  predicate CacheFresh(store: UpdateStore, now: int)
  {
    store.lastUpdateCheck != 0 && now - store.lastUpdateCheck < CacheWindow
  }

  /** The cached answer: the stored update, unless it is a pre-release and pre-releases are off. */
  function CachedAnswer(store: UpdateStore, preRelease: bool): Option<UpdateDetails>
  {
    match store.latestUpdate
    case None => None
    case Some(u) => if !preRelease && u.preRelease then None else Some(u)
  }

  /**
   * `checkForAppUpdate` as written. When no release is left and the running
   * version is known, `updateData.draft` is read on `undefined` and the
   * promise rejects before the store is written.
   */
  function CheckAsWritten(preRelease: bool, currentVersion: Option<string>, platform: string,
                          store: UpdateStore, now: int, response: FetchResult): CheckResult
  {
    if CacheFresh(store, now) then CheckResult(Resolved(CachedAnswer(store, preRelease)), store, false)
    else match response
      case NetworkError => CheckResult(Rejected, store, true)
      case NotArray => CheckResult(Resolved(store.latestUpdate), store, true)
      case Releases(rs) =>
        match Selected(rs, preRelease)
        case None =>
          if currentVersion.Some? then CheckResult(Rejected, store, true)
          else CheckResult(Resolved(None), UpdateStore(None, now), true)
        case Some(r) =>
          var offered := if currentVersion != Some(r.tagName) then Some(Details(r, platform)) else None;
          CheckResult(Resolved(offered), UpdateStore(offered, now), true)
  }

  /** A release list with nothing eligible makes the as-written check reject instead of reporting "no update". */
  lemma AsWrittenRejectsWhenNothingEligible()
    ensures CheckAsWritten(false, Some("v1.0.0"), "darwin", UpdateStore(None, 0), 5000,
      Releases([Release(1, "Beta", "v1.1.0-beta", false, true, "", "", [])])).outcome == Rejected
  {
    var rs := [Release(1, "Beta", "v1.1.0-beta", false, true, "", "", [])];
    assert DropDrafts(rs) == rs;
    assert DropPreReleases(rs) == [];
  }

  /** `checkForAppUpdate` with "nothing left" treated as "no update". */
  function Check(preRelease: bool, currentVersion: Option<string>, platform: string,
                 store: UpdateStore, now: int, response: FetchResult): (r: CheckResult)
    // Within the hour nothing is fetched and the store is left alone.
    ensures CacheFresh(store, now) ==> r == CheckResult(Resolved(CachedAnswer(store, preRelease)), store, false)
    // A body that is not an array yields the stored update, whatever it is, and writes nothing.
    ensures !CacheFresh(store, now) && response == NotArray ==> r == CheckResult(Resolved(store.latestUpdate), store, true)
    // Only a failed request rejects.
    ensures r.outcome == Rejected <==> !CacheFresh(store, now) && response == NetworkError
    // After a completed network check the store holds the time and the answer.
    ensures !CacheFresh(store, now) && response.Releases? ==>
      r.outcome.Resolved? && r.store == UpdateStore(r.outcome.update, now)
  {
    if CacheFresh(store, now) then CheckResult(Resolved(CachedAnswer(store, preRelease)), store, false)
    else match response
      case NetworkError => CheckResult(Rejected, store, true)
      case NotArray => CheckResult(Resolved(store.latestUpdate), store, true)
      case Releases(rs) =>
        match Selected(rs, preRelease)
        case None => CheckResult(Resolved(None), UpdateStore(None, now), true)
        case Some(r) =>
          var offered := if currentVersion != Some(r.tagName) then Some(Details(r, platform)) else None;
          CheckResult(Resolved(offered), UpdateStore(offered, now), true)
  }

  /** The correction changes only the case the as-written check rejects. */
  lemma CheckAgreesWhenSomethingEligible(preRelease: bool, currentVersion: Option<string>, platform: string,
                                         store: UpdateStore, now: int, response: FetchResult)
    requires !(response.Releases? && Selected(response.releases, preRelease).None? && currentVersion.Some?)
      || CacheFresh(store, now)
    ensures Check(preRelease, currentVersion, platform, store, now, response)
      == CheckAsWritten(preRelease, currentVersion, platform, store, now, response)
  {
  }

  /**
   * A fetched answer is the first eligible release, offered only when its
   * tag differs from the running version: never a draft, and never a
   * pre-release unless asked for.
   */
  lemma OfferedIsFirstEligible(preRelease: bool, currentVersion: Option<string>, platform: string,
                               store: UpdateStore, now: int, rs: seq<Release>)
    requires !CacheFresh(store, now)
    ensures var r := Check(preRelease, currentVersion, platform, store, now, Releases(rs));
      r.outcome.update.Some? <==>
        exists i :: FirstEligibleAt(rs, i, preRelease)
          && currentVersion != Some(rs[i].tagName)
          && r.outcome.update == Some(Details(rs[i], platform))
  {
    SelectedIsFirstEligible(rs, preRelease);
    var r := Check(preRelease, currentVersion, platform, store, now, Releases(rs));
    if exists i :: FirstEligibleAt(rs, i, preRelease)
          && currentVersion != Some(rs[i].tagName)
          && r.outcome.update == Some(Details(rs[i], platform)) {
      var i :| FirstEligibleAt(rs, i, preRelease)
          && currentVersion != Some(rs[i].tagName)
          && r.outcome.update == Some(Details(rs[i], platform));
      var k :| FirstEligibleAt(rs, k, preRelease) && rs[k] == Selected(rs, preRelease).value;
      assert i == k;
    }
  }

  /** An offered update is never a draft, and is a pre-release only when pre-releases are on. */
  lemma OfferedNeverDraft(preRelease: bool, currentVersion: Option<string>, platform: string,
                          store: UpdateStore, now: int, rs: seq<Release>)
    requires !CacheFresh(store, now)
    ensures var r := Check(preRelease, currentVersion, platform, store, now, Releases(rs));
      r.outcome.update.Some? ==>
        (exists x :: x in rs && !x.draft && (preRelease || !x.prerelease) && r.outcome.update.value == Details(x, platform))
        && (!preRelease ==> !r.outcome.update.value.preRelease)
  {
    var r := Check(preRelease, currentVersion, platform, store, now, Releases(rs));
    if r.outcome.update.Some? {
      var x := Selected(rs, preRelease).value;
      assert x in Candidates(rs, preRelease);
    }
  }

  /** Re-running within the hour gives the answer just stored (a pre-release only when pre-releases are still on). */
  lemma CacheRepeatsLastAnswer(preRelease: bool, currentVersion: Option<string>, platform: string,
                               store: UpdateStore, now: int, later: int, rs: seq<Release>, response: FetchResult)
    requires !CacheFresh(store, now) && now != 0 && now <= later < now + CacheWindow
    ensures var first := Check(preRelease, currentVersion, platform, store, now, Releases(rs));
      Check(preRelease, currentVersion, platform, first.store, later, response).outcome == first.outcome
  {
    var first := Check(preRelease, currentVersion, platform, store, now, Releases(rs));
    if first.outcome.update.Some? {
      OfferedNeverDraft(preRelease, currentVersion, platform, store, now, rs);
    }
  }
}
