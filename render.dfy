/**
 * The HTML fragments the timeline template inserts for attachments and
 * avatars (slack.py:61-73). Both point at the image cache that
 * `cache_thumbs` fills, so the lemmas here tie each reference to a path the
 * cache holds once it has run.
 */
module Render {
  import opened Wrappers
  import opened Strings
  import opened Types
  import opened Records
  import opened Markup
  import opened Media
  import opened Collections
  import opened Extract

  /** A thumbnail image linking to the attachment. */
  function ThumbnailImage(href: string, src: string): string {
    "<a href=\"" + href + "\"><img src=\"" + src + "\" style=\"max-width: 150px;\" /></a>"
  }

  /** An avatar image. */
  function AvatarImage(src: string): string {
    "<img src=\"" + src + "\" style=\"max-width: 20px;\" max-width=\"20px\" />"
  }

  /** The grey box shown in place of a missing avatar. */
  const AvatarPlaceholder: string :=
    "<span style=\"display=block; max-width: 20px; max-height: 20px;background-color: #eee;\" max-width=\"20px\"></span>"

  /**
   * `render_thumbnail` (slack.py:61-66): a file without a truthy thumbnail
   * URL is a plain link captioned with its type; otherwise its cached
   * thumbnail is shown.
   */
  function RenderThumbnail(f: File): string {
    if !Truthy(f.thumbnailUrl) then Anchor(f.urlPrivate, f.filetype)
    else ThumbnailImage(f.urlPrivate, "./" + CachePath(f.thumbnailUrlHash))
  }

  /** The avatar cache key of a sender; a stub sender has none. */
  function AvatarKey(s: Sender): Option<string> {
    match s
    case Known(u) => u.imgUrlHash
    case Stub(_) => None
  }

  /** `render_user_img` (slack.py:68-73): the cached avatar when the key is truthy, the placeholder otherwise. */
  function RenderUserImg(s: Sender): string {
    var key := AvatarKey(s);
    if !Truthy(key) then AvatarPlaceholder
    else AvatarImage("./" + CachePath(key))
  }

  /** A message as the extractor yields it carries the cache keys of its sender's avatar and of its thumbnails. */
  lemma ExtractedWellKeyed(m: ApiMessage, rawUsers: map<string, RawUser>, md5hex: string -> string)
    ensures WellKeyedMessage(Extracted(m, ConvertUsers(rawUsers, md5hex), md5hex), md5hex)
  {
    var users := ConvertUsers(rawUsers, md5hex);
    MessageFilesWellKeyed(WithSender(m, users), users, md5hex);
    ExtractedSender(m, rawUsers, md5hex);
  }

  /**
   * Every message `extract_channel` yields is well keyed, so the cache and
   * rendering lemmas below apply to its output.
   */
  lemma ExtractedChannelWellKeyed(pages: seq<seq<ApiMessage>>, rawUsers: map<string, RawUser>, md5hex: string -> string, ms: seq<Message>)
    requires |ms| == |Flatten(pages)|
    requires forall i :: 0 <= i < |ms| ==>
      Some(ms[i]) == MessageFromRaw(WithSender(Flatten(pages)[i], ConvertUsers(rawUsers, md5hex)), ConvertUsers(rawUsers, md5hex), md5hex)
    ensures forall i :: 0 <= i < |ms| ==> WellKeyedMessage(ms[i], md5hex)
  {
    forall i | 0 <= i < |ms|
      ensures WellKeyedMessage(ms[i], md5hex)
    {
      ExtractedWellKeyed(Flatten(pages)[i], rawUsers, md5hex);
    }
  }

  /**
   * Once the cache has run over the messages, the thumbnail of each file
   * with a thumbnail URL is shown from `.cache/<md5 of the URL>.png`, and that
   * file is present.
   */
  lemma ThumbnailServedFromCache(ms: seq<Message>, i: nat, j: nat, md5hex: string -> string, present: set<string>)
    requires forall k :: 0 <= k < |ms| ==> WellKeyedMessage(ms[k], md5hex)
    requires MappedPaths(UrlMap(ms)) <= present
    requires i < |ms| && j < |ms[i].files| && Truthy(ms[i].files[j].thumbnailUrl)
    ensures var f := ms[i].files[j];
      var path := ".cache/" + md5hex(f.thumbnailUrl.value) + ".png";
      RenderThumbnail(f) == ThumbnailImage(f.urlPrivate, "./" + path) && path in present
  {
    var f := ms[i].files[j];
    var url := f.thumbnailUrl.value;
    assert MessageRefers(ms[i], url);
    UrlMapDomain(ms, url);
    UrlMapKeys(ms, md5hex);
    assert CachePath(UrlMap(ms)[url]) in MappedPaths(UrlMap(ms));
    assert WellKeyedFile(f, md5hex);
  }

  /**
   * Once the cache has run over the messages, a resolved sender with an
   * avatar URL is shown from `.cache/<md5 of the URL>.png`, and that file is
   * present; any other sender gets the placeholder.
   */
  lemma AvatarServedFromCache(ms: seq<Message>, i: nat, md5hex: string -> string, present: set<string>)
    requires forall k :: 0 <= k < |ms| ==> WellKeyedMessage(ms[k], md5hex)
    requires MappedPaths(UrlMap(ms)) <= present
    requires i < |ms|
    ensures SenderImage(ms[i].user).Some? ==>
      var path := ".cache/" + md5hex(SenderImage(ms[i].user).value) + ".png";
      RenderUserImg(ms[i].user) == AvatarImage("./" + path) && path in present
    ensures SenderImage(ms[i].user).None? ==> RenderUserImg(ms[i].user) == AvatarPlaceholder
  {
    var s := ms[i].user;
    assert WellKeyedMessage(ms[i], md5hex);
    if SenderImage(s).Some? {
      var url := SenderImage(s).value;
      assert MessageRefers(ms[i], url);
      UrlMapDomain(ms, url);
      UrlMapKeys(ms, md5hex);
      assert CachePath(UrlMap(ms)[url]) in MappedPaths(UrlMap(ms));
    }
  }
}
