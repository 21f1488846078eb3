/**
 * Collecting the member table and extracting a channel's messages
 * (slack.py:235-242, 255-261). The paginated listings of the chat service
 * are given as sequences of pages.
 */
module Extract {
  import opened Wrappers
  import opened Types
  import opened Collections
  import opened Records

  /** The `(id, member)` assignments the member listing performs, page after page. */
  function MemberPairs(members: seq<RawUser>): (ps: seq<(string, RawUser)>)
    ensures |ps| == |members|
    ensures forall i :: 0 <= i < |members| ==> ps[i] == (members[i].id, members[i])
  {
    seq(|members|, i requires 0 <= i < |members| => (members[i].id, members[i]))
  }

  /**
   * `users` (slack.py:235-242): every member of every page, keyed by ID; a
   * member listed twice keeps its last listing.
   */
  method CollectUsers(pages: seq<seq<RawUser>>) returns (users: map<string, RawUser>)
    ensures users == ToMap(MemberPairs(Flatten(pages)))
  {
    users := map[];
    ghost var done: seq<RawUser> := [];
    var p := 0;
    while p < |pages|
      invariant 0 <= p <= |pages|
      invariant done == Flatten(pages[..p])
      invariant users == ToMap(MemberPairs(done))
    {
      var page := pages[p];
      var j := 0;
      assert done + page[..0] == done;
      while j < |page|
        invariant 0 <= j <= |page|
        invariant users == ToMap(MemberPairs(done + page[..j]))
      {
        var member := page[j];
        assert MemberPairs(done + page[..j + 1]) == MemberPairs(done + page[..j]) + [(member.id, member)];
        users := users[member.id := member];
        j := j + 1;
      }
      assert page[..j] == page;
      assert pages[..p + 1][..p] == pages[..p];
      done := done + page;
      p := p + 1;
    }
    assert pages[..p] == pages;
  }

  /** Every listed member is in the table, under its ID, as its last listing. */
  lemma CollectedUsers(members: seq<RawUser>, i: nat)
    requires i < |members|
    requires forall j :: i < j < |members| ==> members[j].id != members[i].id
    ensures members[i].id in ToMap(MemberPairs(members))
    ensures ToMap(MemberPairs(members))[members[i].id] == members[i]
  {
    ToMapLastWrite(MemberPairs(members), i);
  }

  /** `{k: User.from_message(u) for k, u in users.items()}` (slack.py:256). */
  function ConvertUsers(raw: map<string, RawUser>, md5hex: string -> string): map<string, User> {
    map k | k in raw :: UserFromRaw(raw[k], md5hex)
  }

  /**
   * The sender substitution of slack.py:259-260: the member the message's
   * `user` ID names, else the stub `{"id": <the ID or None>}`.
   */
  function SenderOf(user: Option<string>, users: map<string, User>): Sender {
    if user.Some? && user.value in users then Known(users[user.value]) else Stub(user)
  }

  /** The history message with its `user` slot replaced by its sender. */
  function WithSender(m: ApiMessage, users: map<string, User>): (r: RawMessage)
    ensures r.user.Some?
    ensures r.user.value.Known? <==> m.user.Some? && m.user.value in users
    ensures r.user.value.Known? ==> r.user.value.user == users[m.user.value]
    ensures r.user.value.Stub? ==> r.user.value.id == m.user
    ensures r.text == m.text && r.ts == m.ts && r.reactions == m.reactions && r.files == m.files
  {
    RawMessage(m.text, Some(SenderOf(m.user, users)), m.ts, m.reactions, m.files)
  }

  /** The normalised message the extractor yields for one history message. */
  function Extracted(m: ApiMessage, users: map<string, User>, md5hex: string -> string): Message {
    MessageFromRaw(WithSender(m, users), users, md5hex).value
  }

  /**
   * `extract_channel` (slack.py:255-261): the sender of every message of
   * every page is substituted and the message normalised. Since the sender
   * slot is never empty afterwards, there is exactly one message out per
   * message in, in order.
   */
  method ExtractChannel(pages: seq<seq<ApiMessage>>, rawUsers: map<string, RawUser>, md5hex: string -> string)
    returns (out: seq<Message>)
    ensures |out| == |Flatten(pages)|
    ensures forall i :: 0 <= i < |out| ==>
      Some(out[i]) == MessageFromRaw(WithSender(Flatten(pages)[i], ConvertUsers(rawUsers, md5hex)), ConvertUsers(rawUsers, md5hex), md5hex)
  {
    var users := ConvertUsers(rawUsers, md5hex);
    out := [];
    ghost var done: seq<ApiMessage> := [];
    var p := 0;
    while p < |pages|
      invariant 0 <= p <= |pages|
      invariant done == Flatten(pages[..p])
      invariant |out| == |done|
      invariant forall i :: 0 <= i < |out| ==> Some(out[i]) == MessageFromRaw(WithSender(done[i], users), users, md5hex)
    {
      var page := pages[p];
      var j := 0;
      while j < |page|
        invariant 0 <= j <= |page|
        invariant |out| == |done| + j
        invariant forall i :: 0 <= i < |out| ==>
          Some(out[i]) == MessageFromRaw(WithSender((done + page[..j])[i], users), users, md5hex)
      {
        var raw := WithSender(page[j], users);
        var m := MessageFromRaw(raw, users, md5hex);
        assert (done + page[..j + 1]) == (done + page[..j]) + [page[j]];
        out := out + [m.value];
        j := j + 1;
      }
      assert page[..j] == page;
      assert pages[..p + 1][..p] == pages[..p];
      done := done + page;
      p := p + 1;
    }
    assert pages[..p] == pages;
  }

  /**
   * The sender of each extracted message: the resolved member when the ID is
   * in the table, the stub otherwise. Either way the message is kept.
   */
  lemma ExtractedSender(m: ApiMessage, rawUsers: map<string, RawUser>, md5hex: string -> string)
    ensures var users := ConvertUsers(rawUsers, md5hex);
      var out := Extracted(m, users, md5hex);
      && (m.user.Some? && m.user.value in rawUsers ==> out.user == Known(UserFromRaw(rawUsers[m.user.value], md5hex)))
      && (m.user.None? || m.user.value !in rawUsers ==> out.user == Stub(m.user))
      && out.datetime == m.ts
  {
  }
}
