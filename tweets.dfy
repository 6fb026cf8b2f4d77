/** A search result as the bot sees it: the decoded status object with the
    fields the bot reads. */
module Tweets {
  import opened Php

  /** An entry of entities->urls: the t.co link in the text and its target. */
  datatype UrlEntity = UrlEntity(url: Bytes, expandedUrl: Bytes)

  /** An entry of entities->media: the t.co link and its display form. */
  datatype MediaEntity = MediaEntity(url: Bytes, displayUrl: Bytes)

  /** The author: numeric id (compared against the block list) and screen name. */
  datatype User = User(id: int, screenName: Bytes)

  /** A status: id_str, text, user and the two entity lists. A missing
      entity list is the empty sequence. */
  datatype Tweet = Tweet(
    idStr: Bytes,
    text: Bytes,
    user: User,
    urls: seq<UrlEntity>,
    media: seq<MediaEntity>)
}
