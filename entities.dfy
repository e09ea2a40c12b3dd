/** The records that flow through the watcher: its configuration, one item of the
    App Store feed, the canonical review, and the Slack message built from it. */
module Entities {
  import opened Js

  /** The two values `config.store` is resolved to. */
  const APP_STORE: string := "app-store"
  const GOOGLE_PLAY: string := "google-play"

  /** One watched app's configuration. `start` rewrites `store`, `region` and `feed`
      in place; every other option is only read. `interval` and `slackHook` are not
      part of this model (they only reach the timer and the webhook). */
  class Config {
    const appId: Option<string>
    var store: Option<string>
    var region: Option<string>
    var feed: Option<string>
    const appName: Option<string>
    const appIcon: Option<string>
    const appLink: Option<string>
    const botUsername: Option<string>
    const botIcon: Option<string>
    const channel: Option<string>
    const debug: bool

    constructor (appId: Option<string>, store: Option<string>, region: Option<string>,
                 feed: Option<string>, appName: Option<string>, appIcon: Option<string>,
                 appLink: Option<string>, botUsername: Option<string>, botIcon: Option<string>,
                 channel: Option<string>, debug: bool)
      ensures this.appId == appId && this.store == store && this.region == region
      ensures this.feed == feed && this.appName == appName && this.appIcon == appIcon
      ensures this.appLink == appLink && this.botUsername == botUsername
      ensures this.botIcon == botIcon && this.channel == channel && this.debug == debug
    {
      this.appId := appId;
      this.store := store;
      this.region := region;
      this.feed := feed;
      this.appName := appName;
      this.appIcon := appIcon;
      this.appLink := appLink;
      this.botUsername := botUsername;
      this.botIcon := botIcon;
      this.channel := channel;
      this.debug := debug;
    }
  }

  /** A feed object of the shape `{'#': content}`. */
  datatype Labelled = Labelled(content: Option<string>)

  /** One entry of the App Store review feed. `date` is the entry's timestamp already
      rendered by `toISOString` (`YYYY-MM-DDTHH:mm:ss.sssZ`); `imRating` is the text of
      `im:rating['#']` (absent when `im:rating` or its `'#'` is). */
  datatype RssItem = RssItem(
    id: Option<string>,
    title: Option<string>,
    description: Option<string>,
    author: Option<string>,
    date: Option<string>,
    imRating: Option<string>,
    imName: Option<Labelled>,
    imImage: Option<seq<Labelled>>,
    link: Option<string>)

  /** The canonical review every store's adapter produces. */
  datatype Review = Review(
    id: Option<string>,
    title: Option<string>,
    text: Option<string>,
    rating: int,
    date: Option<string>,
    author: Option<string>,
    link: Option<string>,
    storeName: string)

  /** The app metadata discovered from the feed, as a value. */
  datatype AppInfo = AppInfo(appName: Option<string>, appIcon: Option<string>, appLink: Option<string>)

  /** One Slack attachment; a key the message does not set is `None`. */
  datatype Attachment = Attachment(
    mrkdwnIn: seq<string>,
    fallback: string,
    pretext: string,
    color: Option<string>,
    authorName: Option<string>,
    authorIcon: Option<string>,
    title: Option<string>,
    titleLink: Option<string>,
    text: Option<string>)

  /** The JSON body posted to the Slack webhook. */
  datatype Message = Message(
    username: Option<string>,
    iconUrl: Option<string>,
    channel: Option<string>,
    attachments: seq<Attachment>)
}
