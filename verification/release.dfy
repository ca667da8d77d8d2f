/**
 * Reading GitHub's "latest release" answer into the version to install and
 * the archive to download (`IntegrationUpdater._get_latest_version`).
 */
module Release {
  import opened Wrappers
  import opened Text

  /** The tag-archive location of the repository `StudyDay6/ct_ble_devices`. */
  const SourceArchivePrefix := "https://github.com/StudyDay6/ct_ble_devices/archive/refs/tags/v"

  /** One entry of the release's `assets` array; a missing key is `None`. */
  datatype Asset = Asset(name: Option<string>, browserDownloadUrl: Option<string>)

  /** The decoded JSON body: `tag_name` (maybe missing) and `assets` (missing reads as empty). */
  datatype ReleaseData = ReleaseData(tagName: Option<string>, assets: seq<Asset>)

  /**
   * What the GET request produced: a status with the decoded body, or a
   * failure (timeout, transport error, undecodable body).
   */
  datatype Response = Response(status: int, data: ReleaseData) | RequestFailed

  /** The `(latest_version, download_url)` pair when both are known. */
  datatype LatestRelease = LatestRelease(version: string, downloadUrl: string)

  /** The tag with Python's `data.get("tag_name", "")` default. */
  function TagOf(data: ReleaseData): string {
    match data.tagName
    case Some(t) => t
    case None => ""
  }

  /** The tag-archive URL used when the release has no `.zip` asset. */
  function SourceArchiveUrl(version: string): (url: string)
    ensures StartsWith(url, SourceArchivePrefix)
    ensures EndsWith(url, version + ".zip")
    ensures |url| == |SourceArchivePrefix| + |version| + 4
  {
    var url := SourceArchivePrefix + version + ".zip";
    assert url[..|SourceArchivePrefix|] == SourceArchivePrefix;
    assert url[|url| - |version + ".zip"|..] == version + ".zip";
    url
  }

  /** `asset.get("name", "").endswith(".zip")` */
  predicate IsZipAsset(a: Asset) {
    EndsWith(match a.name case Some(n) => n case None => "", ".zip")
  }

  /** The position of the first asset whose name ends in `.zip`. */
  function FirstZipAsset(assets: seq<Asset>): (r: Option<nat>)
    ensures r.Some? ==> r.value < |assets| && IsZipAsset(assets[r.value])
    ensures forall k :: 0 <= k < |assets| && (r.None? || k < r.value) ==> !IsZipAsset(assets[k])
  {
    if assets == [] then None
    else if IsZipAsset(assets[0]) then Some(0)
    else
      match FirstZipAsset(assets[1..])
      case None => None
      case Some(k) => Some(k + 1)
  }

  /**
   * The loop over `assets` stops at the first `.zip` asset and takes its
   * `browser_download_url`; when that is missing or empty, or when there is
   * no `.zip` asset, the tag archive of the version is used.
   */
  function DownloadUrl(version: string, assets: seq<Asset>): (url: string)
    ensures FirstZipAsset(assets).Some? && Truthy(assets[FirstZipAsset(assets).value].browserDownloadUrl)
            ==> url == assets[FirstZipAsset(assets).value].browserDownloadUrl.value
    ensures (forall k :: 0 <= k < |assets| ==> !IsZipAsset(assets[k])) ==> url == SourceArchiveUrl(version)
    ensures FirstZipAsset(assets).Some? && !Truthy(assets[FirstZipAsset(assets).value].browserDownloadUrl)
            ==> url == SourceArchiveUrl(version)
  {
    var chosen := match FirstZipAsset(assets) case Some(k) => assets[k].browserDownloadUrl case None => None;
    if Truthy(chosen) then chosen.value else SourceArchiveUrl(version)
  }

  /** `_get_latest_version`: `None` stands for the `(None, None)` answer. */
  function GetLatestVersion(resp: Response): (r: Option<LatestRelease>)
    ensures r.Some? <==> resp.Response? && resp.status == 200 && LStrip(TagOf(resp.data), 'v') != ""
    ensures r.Some? ==>
              var tag := TagOf(resp.data);
              var v := r.value.version;
              && v != "" && v[0] != 'v'
              && |v| <= |tag| && tag == Repeat('v', |tag| - |v|) + v
              && r.value.downloadUrl == DownloadUrl(v, resp.data.assets)
  {
    match resp
    case RequestFailed => None
    case Response(status, data) =>
      if status != 200 then None
      else
        var version := LStrip(TagOf(data), 'v');
        if version == "" then None
        else Some(LatestRelease(version, DownloadUrl(version, data.assets)))
  }

  /**
   * A release tagged `v` followed by a version (such as `v2.3.0`) without a
   * `.zip` asset is downloaded from the tag archive
   * `.../archive/refs/tags/v2.3.0.zip`.
   */
  lemma TagArchiveFallback(version: string, assets: seq<Asset>)
    requires version != "" && version[0] != 'v'
    requires forall k :: 0 <= k < |assets| ==> !IsZipAsset(assets[k])
    ensures GetLatestVersion(Response(200, ReleaseData(Some("v" + version), assets)))
         == Some(LatestRelease(version, SourceArchiveUrl(version)))
  {
    var tag := "v" + version;
    assert tag[1..] == version;
    assert LStrip(tag, 'v') == LStrip(version, 'v') == version;
  }

  /** A tag made only of `v` characters, or a missing tag, gives no version. */
  lemma {:induction false} OnlyVsGiveNoVersion(n: nat, assets: seq<Asset>)
    ensures GetLatestVersion(Response(200, ReleaseData(Some(Repeat('v', n)), assets))).None?
  {
    if n > 0 {
      assert Repeat('v', n)[1..] == Repeat('v', n - 1);
      OnlyVsGiveNoVersion(n - 1, assets);
    }
  }
}
