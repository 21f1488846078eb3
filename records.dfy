/**
 * Normalisation of the chat service's records (slack.py:115-213): members,
 * reactions, file attachments and messages. The MD5 digest is not modelled;
 * every constructor that derives a cache key takes the hex digest as a
 * function parameter `md5hex`.
 */
module Records {
  import opened Wrappers
  import opened Strings
  import opened Types
  import opened Markup

  /** The cache file name of a fetched image: the MD5 hex digest of its URL, then `.png`. */
  function CacheKey(url: string, md5hex: string -> string): string {
    md5hex(url) + ".png"
  }

  /** An image URL with its cache key: a key exactly for a truthy URL, and then the one derived from the URL. */
  predicate KeyedBy(url: Option<string>, key: Option<string>, md5hex: string -> string) {
    (key.Some? <==> Truthy(url)) && (key.Some? ==> key.value == CacheKey(url.value, md5hex))
  }

  predicate WellKeyedUser(u: User, md5hex: string -> string) {
    KeyedBy(u.imgUrl, u.imgUrlHash, md5hex)
  }

  predicate WellKeyedFile(f: File, md5hex: string -> string) {
    KeyedBy(f.thumbnailUrl, f.thumbnailUrlHash, md5hex)
  }

  /** The key for an image URL, when the URL is truthy. */
  function KeyOf(url: Option<string>, md5hex: string -> string): Option<string> {
    if Truthy(url) then Some(CacheKey(url.value, md5hex)) else None
  }

  /**
   * `User.from_message` (slack.py:122-137): ID and name as given, the avatar
   * URL from `profile.image_192` (absent when the profile is), its cache key,
   * and the normalised real name or `""`.
   */
  function UserFromRaw(raw: RawUser, md5hex: string -> string): (u: User)
    ensures u.id == raw.id && u.name == raw.name
    ensures u.imgUrl == (if raw.profile.Some? then raw.profile.value.image192 else None)
    ensures u.realNameNormalized
         == (if raw.profile.Some? && raw.profile.value.realNameNormalized.Some?
             then raw.profile.value.realNameNormalized.value else "")
    ensures WellKeyedUser(u, md5hex)
  {
    var imgUrl := match raw.profile case Some(p) => p.image192 case None => None;
    var realName := match raw.profile case Some(p) => p.realNameNormalized.GetOr("") case None => "";
    User(raw.id, raw.name, realName, imgUrl, KeyOf(imgUrl, md5hex))
  }

  /**
   * `[users.get(x) for x in ids if users.get(x)]`: the members the IDs name,
   * in the order of the IDs, skipping IDs the table does not know.
   */
  function ResolveIds(ids: seq<string>, users: map<string, User>): (r: seq<User>)
    ensures |r| <= |ids|
    ensures forall i :: 0 <= i < |r| ==> r[i] in users.Values
    ensures (forall i :: 0 <= i < |ids| ==> ids[i] in users) ==>
      |r| == |ids| && forall i :: 0 <= i < |ids| ==> r[i] == users[ids[i]]
    ensures (forall i :: 0 <= i < |ids| ==> ids[i] !in users) ==> r == []
  {
    if ids == [] then []
    else
      var rest := ResolveIds(ids[1..], users);
      if ids[0] in users then [users[ids[0]]] + rest else rest
  }

  /** Resolution keeps the order of the IDs: resolving two lists one after the other is resolving their concatenation. */
  lemma {:induction false} ResolveIdsAppend(a: seq<string>, b: seq<string>, users: map<string, User>)
    ensures ResolveIds(a + b, users) == ResolveIds(a, users) + ResolveIds(b, users)
    decreases |a|
  {
    if a == [] {
      assert a + b == b;
    } else {
      assert (a + b)[0] == a[0] && (a + b)[1..] == a[1..] + b;
      ResolveIdsAppend(a[1..], b, users);
    }
  }

  /** `Reaction.from_raw` (slack.py:144-151): name and count as given, the reacting members resolved. */
  function ReactionFromRaw(raw: RawReaction, users: map<string, User>): (r: Reaction)
    ensures r.name == raw.name && r.count == raw.count
    ensures r.users == ResolveIds(raw.users.GetOr([]), users)
  {
    Reaction(raw.name, raw.count, ResolveIds(raw.users.GetOr([]), users))
  }

  /**
   * `File.from_dict` (slack.py:162-191): a PDF takes its thumbnail from the
   * `thumb_pdf*` fields, any other type from the `thumb_480*` fields; the
   * cache key is present exactly for a truthy thumbnail URL.
   */
  function FileFromRaw(raw: RawFile, md5hex: string -> string): (f: File)
    ensures f.id == raw.id && f.urlPrivate == raw.urlPrivate && f.filetype == raw.filetype
    ensures raw.filetype == "pdf" ==>
      f.thumbnailUrl == raw.thumbPdf && f.thumbnailWidth == raw.thumbPdfW && f.thumbnailHeight == raw.thumbPdfH
    ensures raw.filetype != "pdf" ==>
      f.thumbnailUrl == raw.thumb480 && f.thumbnailWidth == raw.thumb480W && f.thumbnailHeight == raw.thumb480H
    ensures WellKeyedFile(f, md5hex)
  {
    var url := if raw.filetype == "pdf" then raw.thumbPdf else raw.thumb480;
    var w := if raw.filetype == "pdf" then raw.thumbPdfW else raw.thumb480W;
    var h := if raw.filetype == "pdf" then raw.thumbPdfH else raw.thumb480H;
    File(raw.id, raw.urlPrivate, raw.filetype, url, KeyOf(url, md5hex), w, h)
  }

  /** The cache key depends on the URL alone, not on the file type. */
  lemma FileKeyIgnoresType(raw: RawFile, md5hex: string -> string)
    requires raw.thumbPdf == raw.thumb480 && Truthy(raw.thumb480)
    ensures FileFromRaw(raw, md5hex).thumbnailUrlHash
         == FileFromRaw(raw.(filetype := "pdf"), md5hex).thumbnailUrlHash
         == Some(CacheKey(raw.thumb480.value, md5hex))
  {
  }

  /**
   * `Message.from_message` (slack.py:200-213): nothing for a message without a
   * sender; otherwise the text with its mentions rewritten, the sender, the
   * time, and one reaction and one file per raw entry, in order.
   */
  function MessageFromRaw(raw: RawMessage, users: map<string, User>, md5hex: string -> string): (r: Option<Message>)
    ensures r.None? <==> raw.user.None?
    ensures r.Some? ==>
      && r.value.text == ProcessTextForUsername(raw.text.GetOr(""), users)
      && r.value.user == raw.user.value
      && r.value.datetime == raw.ts
    ensures r.Some? ==>
      var rs := raw.reactions.GetOr([]);
      |r.value.reactions| == |rs| &&
      forall i :: 0 <= i < |rs| ==> r.value.reactions[i] == ReactionFromRaw(rs[i], users)
    ensures r.Some? ==>
      var fs := raw.files.GetOr([]);
      |r.value.files| == |fs| &&
      forall i :: 0 <= i < |fs| ==> r.value.files[i] == FileFromRaw(fs[i], md5hex)
  {
    match raw.user
    case None => None
    case Some(sender) =>
      var rs := raw.reactions.GetOr([]);
      var fs := raw.files.GetOr([]);
      Some(Message(
        ProcessTextForUsername(raw.text.GetOr(""), users),
        sender,
        seq(|rs|, i requires 0 <= i < |rs| => ReactionFromRaw(rs[i], users)),
        raw.ts,
        seq(|fs|, i requires 0 <= i < |fs| => FileFromRaw(fs[i], md5hex))))
  }

  /** Every file of a normalised message carries the cache key of its thumbnail. */
  lemma MessageFilesWellKeyed(raw: RawMessage, users: map<string, User>, md5hex: string -> string)
    requires raw.user.Some?
    ensures var m := MessageFromRaw(raw, users, md5hex).value;
      forall i :: 0 <= i < |m.files| ==> WellKeyedFile(m.files[i], md5hex)
  {
  }
}
