/** The app information the App Store feed carries in a special entry (name, icon,
    link): `isAppInformationEntry` and `updateAppInformation`. Explicit configuration
    always wins; otherwise the most recent metadata entry does. */
module AppMetadata {
  import opened Js
  import opened Entities

  /** The `appInformation` object `start` creates and the feed callbacks fill in. */
  class AppInformation {
    var appName: Option<string>
    var appIcon: Option<string>
    var appLink: Option<string>

    /** `var appInformation = {}`. */
    constructor ()
      ensures Value() == AppInfo(None, None, None)
    {
      appName, appIcon, appLink := None, None, None;
    }

    function Value(): AppInfo
      reads this
    {
      AppInfo(appName, appIcon, appLink)
    }
  }

  /** A feed entry is app information when it has an `im:name`. */
  predicate IsAppInformationEntry(entry: RssItem)
  {
    entry.imName.Some?
  }

  /** The entry has a non-empty `im:image` list. */
  predicate HasImage(entry: RssItem)
  {
    entry.imImage.Some? && |entry.imImage.value| > 0
  }

  /** The app information after `updateAppInformation(config, entry, ...)`. Each field is
      either kept or taken from its own source in the entry, and a field that the
      configuration sets is never written. */
  function Updated(config: Config, entry: RssItem, info: AppInfo): (r: AppInfo)
    ensures !IsAppInformationEntry(entry) ==> r == info
    ensures config.appName.Some? ==> r.appName == info.appName
    ensures config.appIcon.Some? ==> r.appIcon == info.appIcon
    ensures config.appLink.Some? ==> r.appLink == info.appLink
    ensures r.appName == info.appName || r.appName == entry.imName.value.content
    ensures r.appIcon == info.appIcon || (HasImage(entry) && r.appIcon == entry.imImage.value[0].content)
    ensures r.appLink == info.appLink || (Truthy(entry.link) && r.appLink == entry.link)
    ensures IsAppInformationEntry(entry) && config.appName.None? ==> r.appName == entry.imName.value.content
    ensures IsAppInformationEntry(entry) && config.appIcon.None? && HasImage(entry) ==>
              r.appIcon == entry.imImage.value[0].content
    ensures IsAppInformationEntry(entry) && config.appLink.None? && Truthy(entry.link) ==> r.appLink == entry.link
  {
    if !IsAppInformationEntry(entry) then info
    else
      AppInfo(
        appName := if config.appName.None? && entry.imName.Some? then entry.imName.value.content else info.appName,
        appIcon := if config.appIcon.None? && HasImage(entry) then entry.imImage.value[0].content else info.appIcon,
        appLink := if config.appLink.None? && Truthy(entry.link) then entry.link else info.appLink)
  }

  /** `updateAppInformation`: writes the fields of `info` in place. */
  method UpdateAppInformation(config: Config, entry: RssItem, info: AppInformation)
    modifies info
    ensures info.Value() == Updated(config, entry, old(info.Value()))
  {
    if !IsAppInformationEntry(entry) {
      return;
    }
    if config.appName.None? && entry.imName.Some? {
      info.appName := entry.imName.value.content;
    }
    if config.appIcon.None? && HasImage(entry) {
      info.appIcon := entry.imImage.value[0].content;
    }
    if config.appLink.None? && Truthy(entry.link) {
      info.appLink := entry.link;
    }
  }

  /** The app information after every entry of `entries` went through
      `updateAppInformation`, first to last. */
  function UpdatedAll(config: Config, entries: seq<RssItem>, info: AppInfo): AppInfo
    decreases |entries|
  {
    if entries == [] then info else Updated(config, Last(entries), UpdatedAll(config, Init(entries), info))
  }

  /** Entries without `im:name` leave the app information as it was. */
  lemma {:induction false} NoMetadataKeepsInfo(config: Config, entries: seq<RssItem>, info: AppInfo)
    requires forall k :: 0 <= k < |entries| ==> !IsAppInformationEntry(entries[k])
    ensures UpdatedAll(config, entries, info) == info
    decreases |entries|
  {
    if entries != [] {
      assert !IsAppInformationEntry(entries[|entries| - 1]);
      NoMetadataKeepsInfo(config, Init(entries), info);
    }
  }

  /** There is no "first wins": when the configuration leaves the name unset, the name
      is the one of the last metadata entry. */
  lemma {:induction false} LastMetadataEntryNamesTheApp(config: Config, entries: seq<RssItem>, info: AppInfo, k: nat)
    requires config.appName.None?
    requires k < |entries| && IsAppInformationEntry(entries[k])
    requires forall j :: k < j < |entries| ==> !IsAppInformationEntry(entries[j])
    ensures UpdatedAll(config, entries, info).appName == entries[k].imName.value.content
    decreases |entries|
  {
    var last := |entries| - 1;
    if k < last {
      assert !IsAppInformationEntry(entries[last]);
      var init := Init(entries);
      assert forall j :: k < j < |init| ==> init[j] == entries[j];
      LastMetadataEntryNamesTheApp(config, init, info, k);
    }
  }

  /** With no configured icon, the icon is the first image of the last metadata entry
      that has a non-empty `im:image` list. */
  lemma {:induction false} LastImageGivesTheIcon(config: Config, entries: seq<RssItem>, info: AppInfo, k: nat)
    requires config.appIcon.None?
    requires k < |entries| && IsAppInformationEntry(entries[k]) && HasImage(entries[k])
    requires forall j :: k < j < |entries| ==> !(IsAppInformationEntry(entries[j]) && HasImage(entries[j]))
    ensures UpdatedAll(config, entries, info).appIcon == entries[k].imImage.value[0].content
    decreases |entries|
  {
    var last := |entries| - 1;
    if k < last {
      assert !(IsAppInformationEntry(entries[last]) && HasImage(entries[last]));
      var init := Init(entries);
      assert forall j :: k < j < |init| ==> init[j] == entries[j];
      LastImageGivesTheIcon(config, init, info, k);
    }
  }

  /** With no configured link, the link is the one of the last metadata entry whose
      `link` is truthy. */
  lemma {:induction false} LastLinkGivesTheLink(config: Config, entries: seq<RssItem>, info: AppInfo, k: nat)
    requires config.appLink.None?
    requires k < |entries| && IsAppInformationEntry(entries[k]) && Truthy(entries[k].link)
    requires forall j :: k < j < |entries| ==> !(IsAppInformationEntry(entries[j]) && Truthy(entries[j].link))
    ensures UpdatedAll(config, entries, info).appLink == entries[k].link
    decreases |entries|
  {
    var last := |entries| - 1;
    if k < last {
      assert !(IsAppInformationEntry(entries[last]) && Truthy(entries[last].link));
      var init := Init(entries);
      assert forall j :: k < j < |init| ==> init[j] == entries[j];
      LastLinkGivesTheLink(config, init, info, k);
    }
  }

  /** Configured fields survive any sequence of metadata entries. */
  lemma {:induction false} ConfigurationPrevails(config: Config, entries: seq<RssItem>, info: AppInfo)
    ensures var r := UpdatedAll(config, entries, info);
            (config.appName.Some? ==> r.appName == info.appName) &&
            (config.appIcon.Some? ==> r.appIcon == info.appIcon) &&
            (config.appLink.Some? ==> r.appLink == info.appLink)
    decreases |entries|
  {
    if entries != [] {
      ConfigurationPrevails(config, Init(entries), info);
    }
  }
}
