/**
 * Rewriting of the chat service's inline markup (slack.py:22-23, 34-56).
 *
 * Both rewriters are a left-to-right, non-overlapping substitution of one
 * pattern: `<@` then any characters other than `>` then `>` (a user mention),
 * and `<` then any characters other than `>` then `>` (a link). `Scan` cuts a
 * text into plain characters and the bodies of the matches in the order the
 * regular-expression engine finds them; `Substitute` replaces every match by
 * a function of its body.
 */
module Markup {
  import opened Wrappers
  import opened Strings
  import opened Types

  const MentionOpener: string := "<@"
  const LinkOpener: string := "<"

  /** A character outside every match, or the body of one match (the text between the opener and `>`). */
  datatype Segment = Plain(c: char) | Tag(body: string)

  /** The first `>` at or after `from`. */
  function CloseAt(s: string, from: nat): (r: Option<nat>)
    requires from <= |s|
    ensures r.Some? ==> from <= r.value < |s| && s[r.value] == '>'
    ensures r.Some? ==> forall k :: from <= k < r.value ==> s[k] != '>'
    ensures r.None? ==> forall k :: from <= k < |s| ==> s[k] != '>'
    decreases |s| - from
  {
    if from == |s| then None
    else if s[from] == '>' then Some(from)
    else CloseAt(s, from + 1)
  }

  /** Whether a match of `opener[^>]*>` begins at the first character of `s`. */
  predicate TagStarts(s: string, opener: string) {
    StartsWith(s, opener) && CloseAt(s, |opener|).Some?
  }

  /**
   * The regular-expression scan: at each position, a match if one starts
   * there (its body runs to the first `>`), else one plain character.
   * No match body contains `>`.
   */
  function Scan(s: string, opener: string): seq<Segment>
    decreases |s|
  {
    if s == [] then []
    else if TagStarts(s, opener) then
      var j := CloseAt(s, |opener|).value;
      [Tag(s[|opener|..j])] + Scan(s[j + 1..], opener)
    else [Plain(s[0])] + Scan(s[1..], opener)
  }

  /** What one segment becomes: a plain character stays, a match becomes `f(body)`. */
  function Render(seg: Segment, f: string -> string): string {
    match seg
    case Plain(c) => [c]
    case Tag(b) => f(b)
  }

  /** `pattern.sub(f, text)` once the text is scanned: plain characters are kept, each match becomes `f(body)`. */
  function Substitute(segs: seq<Segment>, f: string -> string): string {
    if segs == [] then "" else Render(segs[0], f) + Substitute(segs[1..], f)
  }

  /** The replacement that writes a match back exactly as it stood. */
  function Verbatim(opener: string): string -> string {
    b => opener + b + ">"
  }

  /** One step of the rewriting at a match: its replacement, then the rest of the text after its `>`. */
  lemma SubstituteAtTag(s: string, opener: string, f: string -> string)
    requires TagStarts(s, opener)
    ensures var j := CloseAt(s, |opener|).value;
      Substitute(Scan(s, opener), f) == f(s[|opener|..j]) + Substitute(Scan(s[j + 1..], opener), f)
  {
    var j := CloseAt(s, |opener|).value;
    var segs := Scan(s, opener);
    assert segs[0] == Tag(s[|opener|..j]) && segs[1..] == Scan(s[j + 1..], opener);
  }

  /** One step of the rewriting where no match starts: the character, then the rest of the text. */
  lemma SubstituteAtPlain(s: string, opener: string, f: string -> string)
    requires s != [] && !TagStarts(s, opener)
    ensures Substitute(Scan(s, opener), f) == [s[0]] + Substitute(Scan(s[1..], opener), f)
  {
    var segs := Scan(s, opener);
    assert segs[0] == Plain(s[0]) && segs[1..] == Scan(s[1..], opener);
  }

  /** The scan loses nothing: writing every match back verbatim restores the text. */
  lemma {:induction false} ScanRoundTrip(s: string, opener: string)
    ensures Substitute(Scan(s, opener), Verbatim(opener)) == s
    decreases |s|
  {
    if s != [] {
      if TagStarts(s, opener) {
        var j := CloseAt(s, |opener|).value;
        ScanRoundTrip(s[j + 1..], opener);
        VerbatimAtTag(s, opener);
      } else {
        ScanRoundTrip(s[1..], opener);
        VerbatimAtPlain(s, opener);
      }
    }
  }

  lemma VerbatimAtTag(s: string, opener: string)
    requires s != [] && TagStarts(s, opener)
    requires var j := CloseAt(s, |opener|).value;
      Substitute(Scan(s[j + 1..], opener), Verbatim(opener)) == s[j + 1..]
    ensures Substitute(Scan(s, opener), Verbatim(opener)) == s
  {
    var j := CloseAt(s, |opener|).value;
    var body := s[|opener|..j];
    SubstituteAtTag(s, opener, Verbatim(opener));
    SplitAtTag(s, opener);
    assert Verbatim(opener)(body) == opener + body + ">";
  }

  /** A text that starts with a match is the opener, the body, `>` and the rest. */
  lemma SplitAtTag(s: string, opener: string)
    requires TagStarts(s, opener)
    ensures var j := CloseAt(s, |opener|).value;
      s == opener + s[|opener|..j] + ">" + s[j + 1..]
  {
    var j := CloseAt(s, |opener|).value;
    assert s[..j] == s[..|opener|] + s[|opener|..j];
    assert s[j..] == [s[j]] + s[j + 1..];
    assert s == s[..j] + s[j..];
  }

  lemma VerbatimAtPlain(s: string, opener: string)
    requires s != [] && !TagStarts(s, opener)
    requires Substitute(Scan(s[1..], opener), Verbatim(opener)) == s[1..]
    ensures Substitute(Scan(s, opener), Verbatim(opener)) == s
  {
    SubstituteAtPlain(s, opener, Verbatim(opener));
    assert s == [s[0]] + s[1..];
  }

  lemma {:induction false} SubstituteAppend(a: seq<Segment>, b: seq<Segment>, f: string -> string)
    ensures Substitute(a + b, f) == Substitute(a, f) + Substitute(b, f)
    decreases |a|
  {
    if a == [] {
      assert a + b == b;
    } else {
      assert (a + b)[0] == a[0];
      assert (a + b)[1..] == a[1..] + b;
      SubstituteAppend(a[1..], b, f);
      calc {
        Substitute(a + b, f);
        Render(a[0], f) + Substitute(a[1..] + b, f);
        Render(a[0], f) + (Substitute(a[1..], f) + Substitute(b, f));
        (Render(a[0], f) + Substitute(a[1..], f)) + Substitute(b, f);
      }
    }
  }

  /** Every character of `s` as a plain segment. */
  function Plains(s: string): (segs: seq<Segment>)
    ensures |segs| == |s|
    ensures forall i :: 0 <= i < |s| ==> segs[i] == Plain(s[i])
  {
    if s == [] then [] else [Plain(s[0])] + Plains(s[1..])
  }

  lemma {:induction false} SubstitutePlains(s: string, f: string -> string)
    ensures Substitute(Plains(s), f) == s
    decreases |s|
  {
    if s != [] {
      assert Plains(s)[1..] == Plains(s[1..]);
      SubstitutePlains(s[1..], f);
    }
  }

  /** No occurrence of `opener` starts at any of the first `n` positions of `s`. */
  predicate OpenerFreeUpTo(s: string, opener: string, n: nat) {
    forall k :: 0 <= k < n <= |s| ==> !StartsWith(s[k..], opener)
  }

  /** Where no occurrence of the opener starts, no match starts: the stretch is passed through character by character. */
  lemma {:induction false} ScanPlainPrefix(pre: string, rest: string, opener: string)
    requires opener != []
    requires OpenerFreeUpTo(pre + rest, opener, |pre|)
    ensures Scan(pre + rest, opener) == Plains(pre) + Scan(rest, opener)
    decreases |pre|
  {
    if pre == [] {
      assert pre + rest == rest;
    } else {
      var s := pre + rest;
      assert s[0..] == s;
      assert !TagStarts(s, opener);
      assert s[1..] == pre[1..] + rest;
      forall k | 0 <= k < |pre[1..]| <= |pre[1..] + rest|
        ensures !StartsWith((pre[1..] + rest)[k..], opener)
      {
        assert (pre[1..] + rest)[k..] == s[k + 1..];
      }
      assert Scan(s, opener) == [Plain(pre[0])] + Scan(pre[1..] + rest, opener);
      assert Plains(pre) == [Plain(pre[0])] + Plains(pre[1..]);
      ScanPlainPrefix(pre[1..], rest, opener);
      assert [Plain(pre[0])] + (Plains(pre[1..]) + Scan(rest, opener))
          == ([Plain(pre[0])] + Plains(pre[1..])) + Scan(rest, opener);
    }
  }

  /** Text without `<` holds no occurrence of an opener that begins with `<`. */
  lemma NoAngleOpenerFree(pre: string, rest: string, opener: string)
    requires opener != [] && opener[0] == '<' && '<' !in pre
    ensures OpenerFreeUpTo(pre + rest, opener, |pre|)
  {
    var s := pre + rest;
    forall k | 0 <= k < |pre| <= |s|
      ensures !StartsWith(s[k..], opener)
    {
      assert s[k] == pre[k] && pre[k] in pre;
      if |opener| <= |s[k..]| {
        assert s[k..][..|opener|][0] == s[k];
      }
    }
  }

  /** No `<@` occurs in `s`. */
  predicate MentionFree(s: string) {
    forall k :: 0 <= k && k + 1 < |s| ==> !MentionAt(s, k)
  }

  /** `<@` occurs at position `k` of `s`. */
  predicate MentionAt(s: string, k: int)
    requires 0 <= k && k + 1 < |s|
  {
    s[k] == '<' && s[k + 1] == '@'
  }

  /** Text without `<@`, followed by a mention, holds no earlier occurrence of the mention opener. */
  lemma MentionFreeOpenerFree(pre: string, rest: string)
    requires MentionFree(pre) && StartsWith(rest, MentionOpener)
    ensures OpenerFreeUpTo(pre + rest, MentionOpener, |pre|)
  {
    var s := pre + rest;
    forall k | 0 <= k < |pre| <= |s|
      ensures !StartsWith(s[k..], MentionOpener)
    {
      assert s[k] == pre[k];
      if k + 1 < |pre| {
        assert !MentionAt(pre, k);
        assert s[k + 1] == pre[k + 1];
      } else {
        assert s[k + 1] == rest[0] == rest[..2][0] == '<';
      }
      if 2 <= |s[k..]| {
        assert s[k..][..2][0] == s[k] && s[k..][..2][1] == s[k + 1];
      }
    }
  }

  /** A match whose body has no `>` is taken whole, and the scan resumes right after its `>`. */
  lemma ScanTag(opener: string, body: string, rest: string)
    requires '>' !in body
    ensures Scan(opener + body + ">" + rest, opener) == [Tag(body)] + Scan(rest, opener)
  {
    var s := opener + body + ">" + rest;
    assert s[..|opener|] == opener;
    assert s[|opener|..][..|body|] == body;
    assert s[|opener|..][|body|] == '>';
    var j := CloseAt(s, |opener|).value;
    assert s[|opener|..j] == s[|opener|..][..j - |opener|];
    assert j == |opener| + |body|;
    assert s[|opener|..j] == body;
    assert s[j + 1..] == rest;
  }

  /** Rewriting a text that starts with `<`-free text and then one match. */
  lemma SubstituteOneTag(pre: string, opener: string, body: string, post: string, f: string -> string)
    requires opener != [] && '>' !in body
    requires OpenerFreeUpTo(pre + opener + body + ">" + post, opener, |pre|)
    ensures Substitute(Scan(pre + opener + body + ">" + post, opener), f)
         == pre + f(body) + Substitute(Scan(post, opener), f)
  {
    var rest := opener + body + ">" + post;
    var tail := Substitute(Scan(post, opener), f);
    assert pre + opener + body + ">" + post == pre + rest;
    calc {
      Substitute(Scan(pre + rest, opener), f);
      { ScanPlainPrefix(pre, rest, opener); }
      Substitute(Plains(pre) + Scan(rest, opener), f);
      { SubstituteAppend(Plains(pre), Scan(rest, opener), f); SubstitutePlains(pre, f); }
      pre + Substitute(Scan(rest, opener), f);
      { ScanTag(opener, body, post); SubstituteAppend([Tag(body)], Scan(post, opener), f); }
      pre + (Substitute([Tag(body)], f) + tail);
      { assert Substitute([Tag(body)], f) == f(body); }
      pre + (f(body) + tail);
    }
  }

  /** A match of `opener[^>]*>` spanning positions `i` to `j` of `s`. */
  predicate TagSpan(s: string, opener: string, i: int, j: int) {
    0 <= i && i + |opener| <= j < |s| && s[i..i + |opener|] == opener && s[j] == '>'
  }

  /** The pattern matches somewhere in `s`. */
  ghost predicate HasTag(s: string, opener: string) {
    exists i, j :: TagSpan(s, opener, i, j)
  }

  /** A match that starts at the first character is a match somewhere. */
  lemma TagStartsHasTag(s: string, opener: string)
    ensures TagStarts(s, opener) ==> HasTag(s, opener)
  {
    if TagStarts(s, opener) {
      var j := CloseAt(s, |opener|).value;
      assert s[0..|opener|] == s[..|opener|];
      assert TagSpan(s, opener, 0, j);
    }
  }

  /** A match in the tail of a text is a match in the text. */
  lemma HasTagTail(s: string, opener: string)
    requires s != []
    ensures HasTag(s[1..], opener) ==> HasTag(s, opener)
  {
    if HasTag(s[1..], opener) {
      var i, j :| TagSpan(s[1..], opener, i, j);
      assert s[1..][i..i + |opener|] == s[i + 1..i + 1 + |opener|];
      assert TagSpan(s, opener, i + 1, j + 1);
    }
  }

  /** A text the pattern does not match anywhere comes out of the rewriting unchanged, whatever the replacement. */
  lemma {:induction false} NoTagUnchanged(s: string, opener: string, f: string -> string)
    requires !HasTag(s, opener)
    ensures Substitute(Scan(s, opener), f) == s
    decreases |s|
  {
    if s != [] {
      TagStartsHasTag(s, opener);
      assert !TagStarts(s, opener);
      HasTagTail(s, opener);
      assert !HasTag(s[1..], opener);
      NoTagUnchanged(s[1..], opener, f);
      SubstituteAtPlain(s, opener, f);
      assert s == [s[0]] + s[1..];
    }
  }

  /**
   * The replacement of one mention (slack.py:36-43): the member's name after
   * `@` when the ID is known (the ID itself when the name is empty), and the
   * bare ID, without `@`, when it is not.
   */
  function MentionText(id: string, users: map<string, User>): string {
    if id !in users then id
    else "@" + (if users[id].name != "" then users[id].name else id)
  }

  /** The mention replacement as the function handed to the substitution. */
  function Mentions(users: map<string, User>): string -> string {
    id => MentionText(id, users)
  }

  /** `process_text_for_username` (slack.py:34-45). */
  function ProcessTextForUsername(text: string, users: map<string, User>): string {
    Substitute(Scan(text, MentionOpener), Mentions(users))
  }

  /** The anchor element a link is rendered as. */
  function Anchor(href: string, caption: string): string {
    "<a href=\"" + href + "\">" + caption + "</a>"
  }

  /** The replacement of one link (slack.py:49-54): split on `|`; the first piece is the target, the second (if any) the caption. */
  function LinkText(body: string): string {
    var parts := Split(body, '|');
    if |parts| == 1 then Anchor(parts[0], parts[0]) else Anchor(parts[0], parts[1])
  }

  /** `process_text_for_links` (slack.py:47-56). */
  function ProcessTextForLinks(text: string): string {
    Substitute(Scan(text, LinkOpener), LinkText)
  }

  /**
   * A mention after text without `<@`: a known member with a name becomes
   * `@name`, a known member with an empty name `@ID`, an unknown ID the bare
   * ID; the rest of the text is rewritten on its own.
   */
  lemma UsernameRewrite(pre: string, id: string, post: string, users: map<string, User>)
    requires MentionFree(pre) && '>' !in id
    ensures id in users && users[id].name != "" ==>
      ProcessTextForUsername(pre + "<@" + id + ">" + post, users)
        == pre + "@" + users[id].name + ProcessTextForUsername(post, users)
    ensures id in users && users[id].name == "" ==>
      ProcessTextForUsername(pre + "<@" + id + ">" + post, users)
        == pre + "@" + id + ProcessTextForUsername(post, users)
    ensures id !in users ==>
      ProcessTextForUsername(pre + "<@" + id + ">" + post, users)
        == pre + id + ProcessTextForUsername(post, users)
  {
    MentionStep(pre, id, post, users);
    if id in users {
      var shown := if users[id].name != "" then users[id].name else id;
      AppendRegroup(pre, "@", shown, ProcessTextForUsername(post, users));
    }
  }

  /** Concatenation regrouped around a replacement made of two parts. */
  lemma AppendRegroup(pre: string, a: string, b: string, tail: string)
    ensures pre + (a + b) + tail == pre + a + b + tail
  {
  }

  /** The first mention after text without `<@` is replaced by its text, and the rest is rewritten on its own. */
  lemma MentionStep(pre: string, id: string, post: string, users: map<string, User>)
    requires MentionFree(pre) && '>' !in id
    ensures ProcessTextForUsername(pre + "<@" + id + ">" + post, users)
         == pre + MentionText(id, users) + ProcessTextForUsername(post, users)
  {
    var rest := MentionOpener + id + ">" + post;
    assert rest[..2] == MentionOpener;
    MentionFreeOpenerFree(pre, rest);
    assert pre + rest == pre + MentionOpener + id + ">" + post;
    SubstituteOneTag(pre, MentionOpener, id, post, Mentions(users));
    assert Mentions(users)(id) == MentionText(id, users);
  }

  /** A text without any `<@...>` match is returned unchanged by the mention rewriter. */
  lemma UsernameNoMention(text: string, users: map<string, User>)
    requires !HasTag(text, MentionOpener)
    ensures ProcessTextForUsername(text, users) == text
  {
    NoTagUnchanged(text, MentionOpener, Mentions(users));
  }

  /** A text without any `<...>` match is returned unchanged by the link rewriter. */
  lemma LinksNoLink(text: string)
    requires !HasTag(text, LinkOpener)
    ensures ProcessTextForLinks(text) == text
  {
    NoTagUnchanged(text, LinkOpener, LinkText);
  }

  /** Splitting at the first separator: the piece before it, then the split of the rest. */
  lemma SplitFirst(head: string, sep: char, rest: string)
    requires sep !in head
    ensures Split(head + [sep] + rest, sep) == [head] + Split(rest, sep)
  {
    var s := head + [sep] + rest;
    assert s[..|head|] == head && s[|head|] == sep;
    assert IndexOf(s, sep) == Some(|head|);
    assert s[|head| + 1..] == rest;
  }

  lemma SplitNoSeparator(s: string, sep: char)
    requires sep !in s
    ensures Split(s, sep) == [s]
  {
    assert IndexOf(s, sep) == None;
  }

  /**
   * The link forms: `<URL>` links URL to itself; `<URL|LABEL>` and
   * `<URL|LABEL|...>` link URL under LABEL, ignoring any further pieces.
   */
  lemma LinkForms(url: string, caption: string, more: string)
    requires '|' !in url && '|' !in caption
    ensures LinkText(url) == Anchor(url, url)
    ensures LinkText(url + "|" + caption) == Anchor(url, caption)
    ensures LinkText(url + "|" + caption + "|" + more) == Anchor(url, caption)
  {
    SplitNoSeparator(url, '|');
    LinkTwoPieces(url, caption);
    LinkMorePieces(url, caption, more);
  }

  lemma LinkTwoPieces(url: string, caption: string)
    requires '|' !in url && '|' !in caption
    ensures LinkText(url + "|" + caption) == Anchor(url, caption)
  {
    SplitFirst(url, '|', caption);
    SplitNoSeparator(caption, '|');
    assert url + "|" + caption == url + ['|'] + caption;
    assert Split(url + "|" + caption, '|') == [url, caption];
  }

  lemma LinkMorePieces(url: string, caption: string, more: string)
    requires '|' !in url && '|' !in caption
    ensures LinkText(url + "|" + caption + "|" + more) == Anchor(url, caption)
  {
    var rest := caption + ['|'] + more;
    var body := url + ['|'] + rest;
    assert url + "|" + caption + "|" + more == body;
    var parts := Split(body, '|');
    SplitFirst(url, '|', rest);
    assert parts == [url] + Split(rest, '|');
    SplitFirst(caption, '|', more);
    assert Split(rest, '|')[0] == caption;
    assert parts[0] == url && parts[1] == caption && |parts| != 1;
  }

  /** A link after `<`-free text is replaced by its anchor; the rest of the text is rewritten on its own. */
  lemma LinkRewrite(pre: string, body: string, post: string)
    requires '<' !in pre && '>' !in body
    ensures ProcessTextForLinks(pre + "<" + body + ">" + post)
         == pre + LinkText(body) + ProcessTextForLinks(post)
  {
    var rest := LinkOpener + body + ">" + post;
    NoAngleOpenerFree(pre, rest, LinkOpener);
    assert pre + rest == pre + LinkOpener + body + ">" + post;
    SubstituteOneTag(pre, LinkOpener, body, post, LinkText);
  }

  /** A text without `@` holds no mention. */
  lemma NoAtNoMention(s: string)
    requires '@' !in s
    ensures !HasTag(s, MentionOpener)
  {
    forall i, j ensures !TagSpan(s, MentionOpener, i, j) {
      if 0 <= i && i + 2 <= j < |s| {
        assert s[i..i + 2][1] == s[i + 1];
        assert s[i + 1] in s;
      }
    }
  }

  /** One mention of a named member in otherwise mention-free text becomes `@name`. */
  lemma OneMention(pre: string, id: string, post: string, users: map<string, User>)
    requires MentionFree(pre) && '>' !in id && !HasTag(post, MentionOpener)
    requires id in users && users[id].name != ""
    ensures ProcessTextForUsername(pre + "<@" + id + ">" + post, users) == pre + "@" + users[id].name + post
  {
    UsernameRewrite(pre, id, post, users);
    UsernameNoMention(post, users);
  }

  /** A labelled link at the end of `<`-free text becomes its anchor. */
  lemma OneLink(pre: string, url: string, caption: string)
    requires '<' !in pre && '>' !in url && '>' !in caption
    requires '|' !in url && '|' !in caption
    ensures ProcessTextForLinks(pre + "<" + url + "|" + caption + ">") == pre + Anchor(url, caption)
  {
    var body := url + "|" + caption;
    assert pre + "<" + url + "|" + caption + ">" == pre + "<" + body + ">" + "";
    LinkRewrite(pre, body, "");
    LinkTwoPieces(url, caption);
    assert ProcessTextForLinks("") == "";
  }

  /** The mention stage of the worked example. */
  lemma MentionStageExample(alice: User)
    requires alice.name == "Alice"
    ensures ProcessTextForUsername("hello " + "<@" + "U123" + ">" + " see <http://x|here>", map["U123" := alice])
         == "hello " + "@" + alice.name + " see <http://x|here>"
  {
    NoAtNoMention(" see <http://x|here>");
    OneMention("hello ", "U123", " see <http://x|here>", map["U123" := alice]);
  }

  /** A mention after a link and a stray `<` is rewritten all the same. */
  lemma MentionAfterLinkExample(alice: User)
    requires alice.name == "Alice"
    ensures ProcessTextForUsername("see <http://x> a < b " + "<@" + "U1" + ">", map["U1" := alice])
         == "see <http://x> a < b @Alice"
  {
    var pre := "see <http://x> a < b ";
    assert MentionFree(pre) by {
      forall k | 0 <= k && k + 1 < |pre|
        ensures !MentionAt(pre, k)
      {
        assert pre[k] == '<' ==> k == 4 || k == 17;
      }
    }
    NoAtNoMention("");
    assert pre + "<@" + "U1" + ">" + "" == pre + "<@" + "U1" + ">";
    OneMention(pre, "U1", "", map["U1" := alice]);
  }

  /** The link stage of the worked example. */
  lemma LinkStageExample()
    ensures ProcessTextForLinks("hello @Alice see <http://x|here>") == "hello @Alice see " + Anchor("http://x", "here")
  {
    var pre := "hello @Alice see ";
    assert "hello @Alice see <http://x|here>" == pre + "<" + "http://x" + "|" + "here" + ">";
    OneLink(pre, "http://x", "here");
  }

  /**
   * A message text through both stages, mentions when the message is
   * normalised and links when it is rendered:
   * `hello <@U123> see <http://x|here>` with U123 named Alice.
   */
  lemma MentionThenLinkExample(alice: User)
    requires alice.name == "Alice"
    ensures ProcessTextForLinks(ProcessTextForUsername("hello " + "<@" + "U123" + ">" + " see <http://x|here>", map["U123" := alice]))
         == "hello @Alice see " + Anchor("http://x", "here")
  {
    MentionStageExample(alice);
    assert "hello " + "@" + alice.name == "hello @Alice";
    assert "hello @Alice" + " see <http://x|here>" == "hello @Alice see <http://x|here>";
    LinkStageExample();
  }
}
