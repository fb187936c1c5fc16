/**
 * The footer's version links: a license link, then (unless the version is
 * hidden) the version with its release notes, then (when an update exists)
 * a download link. Build and license information are parameters.
 */
module Footer {
  import opened Wrappers
  import opened Strings

  /** Where a link opens: every footer link opens in a new tab (`_blank`). */
  datatype LinkTarget = Blank

  /** One link of the footer. */
  datatype FooterLink = FooterLink(target: LinkTarget, text: string, id: string, icon: Option<string>, url: Option<string>)

  /** The build information the links are made from. */
  datatype BuildInfo = BuildInfo(version: string, commit: string, edition: string, hideVersion: bool, hasUpdate: bool)

  /** The license information the links are made from. */
  datatype LicenseInfo = LicenseInfo(stateInfo: string, licenseUrl: string)

  /** What a version string says about its release. */
  datatype VersionMeta = VersionMeta(hasReleaseNotes: bool, isBeta: bool)

  const LicenseId := "license"
  const VersionId := "version"
  const UpdateVersionId := "updateVersion"
  const ChangelogUrl := "https://github.com/grafana/grafana/blob/main/CHANGELOG.md"
  const DownloadUrl := "https://grafana.com/grafana/download?utm_source=grafana_footer"
  const UpdateText := "New version available!"
  const UpdateIcon := "download-alt"

  /** The default footer links: none. */
  function DefaultFooterLinks(): (links: seq<FooterLink>)
    ensures |links| == 0
  {
    []
  }

  /** Every version has release notes; a version is a beta exactly when it contains `-beta`. */
  function GetVersionMeta(version: string): (meta: VersionMeta)
    ensures meta.hasReleaseNotes
    ensures meta.isBeta <==> exists i :: OccursAt(version, "-beta", i)
  {
    VersionMeta(true, Contains(version, "-beta"))
  }

  /** A `-beta` tag anywhere makes a beta. */
  lemma BetaTagMakesBeta(release: string, suffix: string)
    ensures GetVersionMeta(release + "-beta" + suffix).isBeta
  {
    var v := release + "-beta" + suffix;
    assert v[|release|..|release| + 5] == "-beta";
    assert OccursAt(v, "-beta", |release|);
  }

  /** A version without a dash is no beta. */
  lemma DashlessIsNoBeta(version: string)
    requires '-' !in version
    ensures !GetVersionMeta(version).isBeta
  {
    forall i | OccursAt(version, "-beta", i) ensures false {
      DashStartsTag(version, i);
    }
  }

  lemma DashStartsTag(version: string, i: int)
    requires OccursAt(version, "-beta", i)
    ensures 0 <= i < |version| && version[i] == '-'
  {
    assert version[i..i + 5][0] == '-';
  }

  /** The license state shown after the edition: ` (state)`, or nothing for an empty state. */
  function StateSuffix(stateInfo: string): (s: string)
    ensures stateInfo == [] ==> s == []
    ensures stateInfo != [] ==> s == " (" + stateInfo + ")"
  {
    if |stateInfo| > 0 then " (" + stateInfo + ")" else ""
  }

  /** The license link: the edition with its state, pointing at the license. */
  function LicenseLink(buildInfo: BuildInfo, licenseInfo: LicenseInfo): (link: FooterLink)
    ensures link.id == LicenseId && link.target == Blank && link.icon == None
    ensures link.url == Some(licenseInfo.licenseUrl)
    ensures licenseInfo.stateInfo == [] ==> link.text == buildInfo.edition
    ensures licenseInfo.stateInfo != [] ==> link.text == buildInfo.edition + " (" + licenseInfo.stateInfo + ")"
  {
    FooterLink(Blank, buildInfo.edition + StateSuffix(licenseInfo.stateInfo), LicenseId, None, Some(licenseInfo.licenseUrl))
  }

  /** The version link: `v<version> (<commit>)`, pointing at the release notes. */
  function VersionLink(buildInfo: BuildInfo): (link: FooterLink)
    ensures link.id == VersionId && link.target == Blank && link.icon == None
    ensures link.text == "v" + buildInfo.version + " (" + buildInfo.commit + ")"
    ensures link.url == Some(ChangelogUrl)
  {
    var meta := GetVersionMeta(buildInfo.version);
    FooterLink(Blank, "v" + buildInfo.version + " (" + buildInfo.commit + ")", VersionId, None,
               if meta.hasReleaseNotes then Some(ChangelogUrl) else None)
  }

  /** The link announcing a newer version, pointing at the download page. */
  function UpdateLink(): (link: FooterLink)
    ensures link.id == UpdateVersionId && link.target == Blank
    ensures link.text == UpdateText && link.icon == Some(UpdateIcon) && link.url == Some(DownloadUrl)
  {
    FooterLink(Blank, UpdateText, UpdateVersionId, Some(UpdateIcon), Some(DownloadUrl))
  }

  /**
   * `getVersionLinks`: the license link first; nothing more when the version is
   * hidden; otherwise the version link, then the update link when there is an update.
   */
  method GetVersionLinks(buildInfo: BuildInfo, licenseInfo: LicenseInfo) returns (links: seq<FooterLink>)
    ensures 1 <= |links| <= 3
    ensures links[0] == LicenseLink(buildInfo, licenseInfo)
    ensures |links| == 1 <==> buildInfo.hideVersion
    ensures |links| >= 2 ==> links[1] == VersionLink(buildInfo)
    ensures |links| == 3 <==> !buildInfo.hideVersion && buildInfo.hasUpdate
    ensures |links| == 3 ==> links[2] == UpdateLink()
  {
    links := [];
    var stateInfo := if |licenseInfo.stateInfo| > 0 then " (" + licenseInfo.stateInfo + ")" else "";
    links := links + [FooterLink(Blank, buildInfo.edition + stateInfo, LicenseId, None, Some(licenseInfo.licenseUrl))];
    if buildInfo.hideVersion {
      return;
    }
    var meta := GetVersionMeta(buildInfo.version);
    links := links + [FooterLink(Blank, "v" + buildInfo.version + " (" + buildInfo.commit + ")", VersionId, None,
                                 if meta.hasReleaseNotes then Some(ChangelogUrl) else None)];
    if buildInfo.hasUpdate {
      links := links + [FooterLink(Blank, UpdateText, UpdateVersionId, Some(UpdateIcon), Some(DownloadUrl))];
    }
  }

  /** The three links have different ids, so the footer lists each at most once. */
  lemma LinkIdsDistinct(buildInfo: BuildInfo, licenseInfo: LicenseInfo)
    ensures LicenseLink(buildInfo, licenseInfo).id != VersionLink(buildInfo).id
    ensures LicenseLink(buildInfo, licenseInfo).id != UpdateLink().id
    ensures VersionLink(buildInfo).id != UpdateLink().id
  {
    assert LicenseId[0] != VersionId[0] && LicenseId[0] != UpdateVersionId[0] && VersionId[0] != UpdateVersionId[0];
  }
}
