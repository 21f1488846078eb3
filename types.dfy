/**
 * The records of the pipeline: what the chat service hands over (`Raw*`,
 * `ApiMessage`) and the normalised records built from them (`User`,
 * `Reaction`, `File`, `Message`). Optional JSON fields are `Option`s; a field
 * the source reads with `d[key]` (and so requires) is a plain field.
 */
module Types {
  import opened Wrappers

  /** The `profile` object of a workspace member. */
  datatype RawProfile = RawProfile(image192: Option<string>, realNameNormalized: Option<string>)

  /** A workspace member as the user listing returns it. */
  datatype RawUser = RawUser(id: string, name: string, profile: Option<RawProfile>)

  /** A normalised workspace member; `imgUrlHash` is the avatar's cache key. */
  datatype User = User(
    id: string,
    name: string,
    realNameNormalized: string,
    imgUrl: Option<string>,
    imgUrlHash: Option<string>)

  /** One reaction entry of a raw message: the emoji name, the count and the reacting user IDs. */
  datatype RawReaction = RawReaction(name: string, count: int, users: Option<seq<string>>)

  datatype Reaction = Reaction(name: string, count: int, users: seq<User>)

  /** A file attachment as the history listing returns it (only the fields the pipeline reads). */
  datatype RawFile = RawFile(
    id: string,
    urlPrivate: string,
    filetype: string,
    thumbPdf: Option<string>,
    thumbPdfW: Option<int>,
    thumbPdfH: Option<int>,
    thumb480: Option<string>,
    thumb480W: Option<int>,
    thumb480H: Option<int>)

  datatype File = File(
    id: string,
    urlPrivate: string,
    filetype: string,
    thumbnailUrl: Option<string>,
    thumbnailUrlHash: Option<string>,
    thumbnailWidth: Option<int>,
    thumbnailHeight: Option<int>)

  /**
   * What the channel extractor stores in a message's `user` slot before
   * normalising it: the resolved member, or the one-key stub `{"id": id}` for
   * an ID the member table does not know. Both are truthy Python values.
   */
  datatype Sender = Known(user: User) | Stub(id: Option<string>)

  /** A message of the history listing; `user` is the sender's member ID, `ts` the epoch time in whole seconds. */
  datatype ApiMessage = ApiMessage(
    text: Option<string>,
    user: Option<string>,
    ts: int,
    reactions: Option<seq<RawReaction>>,
    files: Option<seq<RawFile>>)

  /** A history message whose `user` slot has been replaced by a `Sender`, as the normaliser receives it. */
  datatype RawMessage = RawMessage(
    text: Option<string>,
    user: Option<Sender>,
    ts: int,
    reactions: Option<seq<RawReaction>>,
    files: Option<seq<RawFile>>)

  /** A normalised message; `datetime` is the epoch time in whole seconds. */
  datatype Message = Message(
    text: string,
    user: Sender,
    reactions: seq<Reaction>,
    datetime: int,
    files: seq<File>)
}
