/**
 * The image cache (slack.py:24, 263-294). `cache_thumbs` collects the avatar
 * and thumbnail URLs of a list of messages into a dictionary from URL to
 * cache key (a later assignment to a URL overwrites an earlier one) and then
 * downloads each URL to `.cache/<key>` unless that file is already there.
 * The file system is the set of paths present; a download adds its path and
 * is logged as a `(url, path)` pair.
 */
module Media {
  import opened Wrappers
  import opened Strings
  import opened Types
  import opened Collections
  import opened Records

  const CacheDirName: string := ".cache"

  /** `f'{CACHE_DIR}/{key}'`; a missing key is formatted as `None`. */
  function CachePath(key: Option<string>): string {
    CacheDirName + "/" + (if key.Some? then key.value else "None")
  }

  /** The avatar assignment of one message: only a resolved sender with a truthy image URL has one. */
  function SenderRefs(s: Sender): seq<(string, Option<string>)> {
    match s
    case Known(u) => if Truthy(u.imgUrl) then [(u.imgUrl.value, u.imgUrlHash)] else []
    case Stub(_) => []
  }

  /** The thumbnail assignment of one file: only a truthy thumbnail URL has one. */
  function FileRef(f: File): seq<(string, Option<string>)> {
    if Truthy(f.thumbnailUrl) then [(f.thumbnailUrl.value, f.thumbnailUrlHash)] else []
  }

  /** The thumbnail assignments of a message's files, in order. */
  function FileRefs(fs: seq<File>): seq<(string, Option<string>)> {
    if fs == [] then [] else FileRefs(fs[..|fs| - 1]) + FileRef(fs[|fs| - 1])
  }

  /** Every `urls_to_hash[url] = key` assignment of the first loop of `cache_thumbs`, in order. */
  function Refs(ms: seq<Message>): seq<(string, Option<string>)> {
    if ms == [] then []
    else
      var m := ms[|ms| - 1];
      Refs(ms[..|ms| - 1]) + SenderRefs(m.user) + FileRefs(m.files)
  }

  /** `urls_to_hash` once the first loop is done. */
  function UrlMap(ms: seq<Message>): map<string, Option<string>> {
    ToMap(Refs(ms))
  }

  /** The image URL of a sender, when there is one to fetch. */
  function SenderImage(s: Sender): Option<string> {
    if s.Known? && Truthy(s.user.imgUrl) then s.user.imgUrl else None
  }

  /** A URL one message references: the avatar of its sender or the thumbnail of one of its files. */
  ghost predicate MessageRefers(m: Message, url: string) {
    SenderImage(m.user) == Some(url) ||
    exists j :: 0 <= j < |m.files| && m.files[j].thumbnailUrl == Some(url)
  }

  /** A URL the messages reference: a truthy avatar URL of a sender or a truthy thumbnail URL of a file. */
  ghost predicate Referenced(ms: seq<Message>, url: string) {
    url != "" && exists i :: 0 <= i < |ms| && MessageRefers(ms[i], url)
  }

  /** Every path the dictionary maps to. */
  function MappedPaths(urls: map<string, Option<string>>): set<string> {
    set u | u in urls :: CachePath(urls[u])
  }

  /** Every key of the iteration order is a key of the dictionary. */
  predicate AllMapped(keys: seq<string>, urls: map<string, Option<string>>) {
    forall i :: 0 <= i < |keys| ==> keys[i] in urls
  }

  /** The `(url, path)` download jobs of the second loop of `cache_thumbs`, in iteration order. */
  function Jobs(keys: seq<string>, urls: map<string, Option<string>>): (jobs: seq<(string, string)>)
    requires AllMapped(keys, urls)
    ensures |jobs| == |keys|
    ensures forall i :: 0 <= i < |keys| ==> jobs[i] == (keys[i], CachePath(urls[keys[i]]))
  {
    seq(|keys|, i requires 0 <= i < |keys| => (keys[i], CachePath(urls[keys[i]])))
  }

  /**
   * The downloads the jobs perform with `present` on disk: a job whose path
   * is absent is fetched, and its path is present from then on.
   */
  function Downloads(jobs: seq<(string, string)>, present: set<string>): (d: seq<(string, string)>)
    ensures |d| <= |jobs|
    decreases |jobs|
  {
    if jobs == [] then []
    else if jobs[0].1 in present then Downloads(jobs[1..], present)
    else [jobs[0]] + Downloads(jobs[1..], present + {jobs[0].1})
  }

  /** Every download is one of the jobs, and its path was not present at the start. */
  predicate FetchesMissing(d: seq<(string, string)>, jobs: seq<(string, string)>, present: set<string>) {
    forall i :: 0 <= i < |d| ==> d[i] in jobs && d[i].1 !in present
  }

  /** Only jobs whose path was missing are fetched. */
  lemma {:induction false} DownloadsFetchMissing(jobs: seq<(string, string)>, present: set<string>)
    ensures FetchesMissing(Downloads(jobs, present), jobs, present)
    decreases |jobs|
  {
    if jobs != [] {
      var p := jobs[0].1;
      var d := Downloads(jobs, present);
      if p in present {
        var rest := Downloads(jobs[1..], present);
        assert d == rest;
        DownloadsFetchMissing(jobs[1..], present);
        forall i | 0 <= i < |d| ensures d[i] in jobs && d[i].1 !in present {
          assert rest[i] in jobs[1..];
        }
      } else {
        var rest := Downloads(jobs[1..], present + {p});
        DownloadsFetchMissing(jobs[1..], present + {p});
        assert d == [jobs[0]] + rest;
        forall i | 0 <= i < |d| ensures d[i] in jobs && d[i].1 !in present {
          if i > 0 {
            assert d[i] == rest[i - 1];
            assert rest[i - 1] in jobs[1..] && rest[i - 1].1 !in present + {p};
          }
        }
      }
    }
  }

  /** Nothing is fetched when every path is already present. */
  lemma {:induction false} DownloadsNoneWhenPresent(jobs: seq<(string, string)>, present: set<string>)
    requires forall i :: 0 <= i < |jobs| ==> jobs[i].1 in present
    ensures Downloads(jobs, present) == []
    decreases |jobs|
  {
    if jobs != [] {
      DownloadsNoneWhenPresent(jobs[1..], present);
    }
  }

  /** No two downloads write the same path. */
  predicate DistinctPaths(d: seq<(string, string)>) {
    forall i, j :: 0 <= i < j < |d| ==> d[i].1 != d[j].1
  }

  /** No path is fetched twice in one run. */
  lemma {:induction false} DownloadsDistinct(jobs: seq<(string, string)>, present: set<string>)
    ensures DistinctPaths(Downloads(jobs, present))
    decreases |jobs|
  {
    if jobs != [] {
      var p := jobs[0].1;
      var d := Downloads(jobs, present);
      if p in present {
        DownloadsDistinct(jobs[1..], present);
      } else {
        var rest := Downloads(jobs[1..], present + {p});
        assert d == [jobs[0]] + rest;
        DownloadsDistinct(jobs[1..], present + {p});
        DownloadsFetchMissing(jobs[1..], present + {p});
        forall i, j | 0 <= i < j < |d| ensures d[i].1 != d[j].1 {
          assert d[j] == rest[j - 1];
          assert 0 <= j - 1 < |rest| && rest[j - 1].1 !in present + {p};
          if i > 0 {
            assert d[i] == rest[i - 1];
          }
        }
      }
    }
  }

  /** Running the cache again over the same messages, once every mapped path is present, fetches nothing. */
  lemma RerunFetchesNothing(ms: seq<Message>, present: set<string>)
    requires MappedPaths(UrlMap(ms)) <= present
    ensures AllMapped(KeyOrder(Refs(ms)), UrlMap(ms))
    ensures Downloads(Jobs(KeyOrder(Refs(ms)), UrlMap(ms)), present) == []
  {
    KeyOrderIsKeys(Refs(ms));
    var urls := UrlMap(ms);
    var jobs := Jobs(KeyOrder(Refs(ms)), urls);
    forall i | 0 <= i < |jobs| ensures jobs[i].1 in present {
      assert CachePath(urls[jobs[i].0]) in MappedPaths(urls);
    }
    DownloadsNoneWhenPresent(jobs, present);
  }

  /** The local disk: the paths present, and the log of fetches in order. */
  class Disk {
    var present: set<string>
    var fetched: seq<(string, string)>

    constructor (initial: set<string>)
      ensures present == initial && fetched == []
    {
      present := initial;
      fetched := [];
    }

    /**
     * `download_file` (slack.py:263-276): a path already present is left
     * alone; otherwise the URL is fetched into it.
     */
    method DownloadFile(url: string, localFilename: string) returns (path: string)
      modifies this
      ensures path == localFilename
      ensures present == old(present) + {localFilename}
      ensures localFilename in old(present) ==> fetched == old(fetched)
      ensures localFilename !in old(present) ==> fetched == old(fetched) + [(url, localFilename)]
    {
      if localFilename in present {
        return localFilename;
      }
      present := present + {localFilename};
      fetched := fetched + [(url, localFilename)];
      return localFilename;
    }

    /**
     * `cache_thumbs` (slack.py:278-294): afterwards every mapped path is
     * present, and exactly the URLs whose paths were missing were fetched,
     * in the dictionary's iteration order.
     */
    method CacheThumbs(messages: seq<Message>)
      modifies this
      ensures present == old(present) + MappedPaths(UrlMap(messages))
      ensures AllMapped(KeyOrder(Refs(messages)), UrlMap(messages))
      ensures fetched == old(fetched) + Downloads(Jobs(KeyOrder(Refs(messages)), UrlMap(messages)), old(present))
    {
      var urls, order := CollectUrls(messages);
      KeyOrderIsKeys(Refs(messages));
      FetchAll(order, urls);
      KeyPathsAreMapped(order, urls);
    }

    /** The second loop of `cache_thumbs`: each URL in turn is downloaded to its cache path. */
    method FetchAll(order: seq<string>, urls: map<string, Option<string>>)
      requires AllMapped(order, urls)
      modifies this
      ensures present == old(present) + KeyPaths(order, urls)
      ensures fetched == old(fetched) + Downloads(Jobs(order, urls), old(present))
    {
      ghost var jobs := Jobs(order, urls);
      var n := 0;
      while n < |order|
        invariant 0 <= n <= |order|
        invariant present == old(present) + KeyPaths(order[..n], urls)
        invariant fetched + Downloads(jobs[n..], present) == old(fetched) + Downloads(jobs, old(present))
      {
        var key := order[n];
        var path := CachePath(urls[key]);
        assert jobs[n..][0] == (key, path) && jobs[n..][1..] == jobs[n + 1..];
        ghost var before, logged := present, fetched;
        var _ := DownloadFile(key, path);
        if path in before {
          assert present == before;
          assert Downloads(jobs[n..], before) == Downloads(jobs[n + 1..], present);
        } else {
          assert Downloads(jobs[n..], before) == [(key, path)] + Downloads(jobs[n + 1..], present);
          assert fetched + Downloads(jobs[n + 1..], present) == logged + Downloads(jobs[n..], before);
        }
        assert order[..n + 1][..n] == order[..n] && order[..n + 1][n] == key;
        n := n + 1;
      }
      assert order[..n] == order;
    }
  }

  /** The cache paths of the given URLs. */
  function KeyPaths(keys: seq<string>, urls: map<string, Option<string>>): set<string>
    requires AllMapped(keys, urls)
  {
    if keys == [] then {}
    else KeyPaths(keys[..|keys| - 1], urls) + {CachePath(urls[keys[|keys| - 1]])}
  }

  /** Visiting every key of the dictionary visits every mapped path and no other. */
  lemma {:induction false} KeyPathsAreMapped(keys: seq<string>, urls: map<string, Option<string>>)
    requires AllMapped(keys, urls)
    requires forall k :: k in urls ==> k in keys
    ensures KeyPaths(keys, urls) == MappedPaths(urls)
  {
    forall p | p in MappedPaths(urls) ensures p in KeyPaths(keys, urls) {
      var u :| u in urls && p == CachePath(urls[u]);
      var i :| 0 <= i < |keys| && keys[i] == u;
      KeyPathsHas(keys, urls, i);
    }
    KeyPathsWithin(keys, urls);
  }

  lemma {:induction false} KeyPathsHas(keys: seq<string>, urls: map<string, Option<string>>, i: nat)
    requires AllMapped(keys, urls)
    requires i < |keys|
    ensures CachePath(urls[keys[i]]) in KeyPaths(keys, urls)
    decreases |keys|
  {
    if i < |keys| - 1 {
      var prefix := keys[..|keys| - 1];
      assert prefix[i] == keys[i];
      KeyPathsHas(prefix, urls, i);
    }
  }

  lemma {:induction false} KeyPathsWithin(keys: seq<string>, urls: map<string, Option<string>>)
    requires AllMapped(keys, urls)
    ensures KeyPaths(keys, urls) <= MappedPaths(urls)
    decreases |keys|
  {
    if keys != [] {
      KeyPathsWithin(keys[..|keys| - 1], urls);
      var u := keys[|keys| - 1];
      assert CachePath(urls[u]) in MappedPaths(urls);
    }
  }

  /**
   * The first loop of `cache_thumbs`: the dictionary from image URL to cache
   * key, and its iteration order.
   */
  method CollectUrls(messages: seq<Message>) returns (urls: map<string, Option<string>>, order: seq<string>)
    ensures urls == UrlMap(messages)
    ensures order == KeyOrder(Refs(messages))
  {
    urls, order := map[], [];
    ghost var pairs: seq<(string, Option<string>)> := [];
    var i := 0;
    while i < |messages|
      invariant 0 <= i <= |messages|
      invariant pairs == Refs(messages[..i])
      invariant urls == ToMap(pairs) && order == KeyOrder(pairs)
    {
      var m := messages[i];
      assert messages[..i + 1][..i] == messages[..i];
      urls, order := CollectMessageUrls(m, urls, order, pairs);
      pairs := pairs + SenderRefs(m.user) + FileRefs(m.files);
      i := i + 1;
    }
    assert messages[..i] == messages;
  }

  /** One round of the first loop of `cache_thumbs`: the sender's avatar, then the thumbnails of the message's files. */
  method CollectMessageUrls(m: Message, urls0: map<string, Option<string>>, order0: seq<string>,
                            ghost pairs: seq<(string, Option<string>)>)
    returns (urls: map<string, Option<string>>, order: seq<string>)
    requires urls0 == ToMap(pairs) && order0 == KeyOrder(pairs)
    ensures var after := pairs + SenderRefs(m.user) + FileRefs(m.files);
      urls == ToMap(after) && order == KeyOrder(after)
  {
    urls, order := urls0, order0;
    if m.user.Known? && Truthy(m.user.user.imgUrl) {
      urls, order := Assign(urls, order, pairs, m.user.user.imgUrl.value, m.user.user.imgUrlHash);
    } else {
      assert pairs + SenderRefs(m.user) == pairs;
    }
    urls, order := CollectFileUrls(m.files, urls, order, pairs + SenderRefs(m.user));
  }

  /** The inner loop of the first loop of `cache_thumbs`: the thumbnails of one message's files. */
  method CollectFileUrls(files: seq<File>, urls0: map<string, Option<string>>, order0: seq<string>,
                         ghost pairs: seq<(string, Option<string>)>)
    returns (urls: map<string, Option<string>>, order: seq<string>)
    requires urls0 == ToMap(pairs) && order0 == KeyOrder(pairs)
    ensures urls == ToMap(pairs + FileRefs(files)) && order == KeyOrder(pairs + FileRefs(files))
  {
    urls, order := urls0, order0;
    var j := 0;
    assert pairs + FileRefs(files[..0]) == pairs;
    while j < |files|
      invariant 0 <= j <= |files|
      invariant urls == ToMap(pairs + FileRefs(files[..j])) && order == KeyOrder(pairs + FileRefs(files[..j]))
    {
      var f := files[j];
      ghost var done := pairs + FileRefs(files[..j]);
      assert files[..j + 1][..j] == files[..j] && files[..j + 1][j] == f;
      assert pairs + FileRefs(files[..j + 1]) == done + FileRef(f);
      if Truthy(f.thumbnailUrl) {
        urls, order := Assign(urls, order, done, f.thumbnailUrl.value, f.thumbnailUrlHash);
      } else {
        assert done + FileRef(f) == done;
      }
      j := j + 1;
    }
    assert files[..j] == files;
  }

  /** `urls_to_hash[url] = key`: the value is overwritten, and a new key goes to the end of the iteration order. */
  method Assign(urls: map<string, Option<string>>, order: seq<string>, ghost pairs: seq<(string, Option<string>)>,
                url: string, key: Option<string>)
    returns (urls': map<string, Option<string>>, order': seq<string>)
    requires urls == ToMap(pairs) && order == KeyOrder(pairs)
    ensures urls' == ToMap(pairs + [(url, key)]) && order' == KeyOrder(pairs + [(url, key)])
  {
    AssignStep(pairs, url, key);
    order' := if url in urls then order else order + [url];
    urls' := urls[url := key];
  }

  /** One dictionary assignment: the value is overwritten, and a new key goes to the end of the iteration order. */
  lemma AssignStep(pairs: seq<(string, Option<string>)>, k: string, v: Option<string>)
    ensures ToMap(pairs + [(k, v)]) == ToMap(pairs)[k := v]
    ensures KeyOrder(pairs + [(k, v)]) == if k in ToMap(pairs) then KeyOrder(pairs) else KeyOrder(pairs) + [k]
  {
    assert (pairs + [(k, v)])[..|pairs|] == pairs;
    KeyOrderIsKeys(pairs);
  }

  /** Some assignment among `pairs` is to `url`. */
  ghost predicate Assigns(pairs: seq<(string, Option<string>)>, url: string) {
    exists k :: 0 <= k < |pairs| && pairs[k].0 == url
  }

  lemma AssignsAppend(a: seq<(string, Option<string>)>, b: seq<(string, Option<string>)>, url: string)
    ensures Assigns(a + b, url) <==> Assigns(a, url) || Assigns(b, url)
  {
    if Assigns(a + b, url) {
      var k :| 0 <= k < |a + b| && (a + b)[k].0 == url;
      if k >= |a| {
        assert b[k - |a|].0 == url;
      }
    }
    if Assigns(a, url) {
      var k :| 0 <= k < |a| && a[k].0 == url;
      assert (a + b)[k].0 == url;
    }
    if Assigns(b, url) {
      var k :| 0 <= k < |b| && b[k].0 == url;
      assert (a + b)[|a| + k].0 == url;
    }
  }

  /** The thumbnail assignments name exactly the truthy thumbnail URLs of the files. */
  lemma {:induction false} FileRefsAssign(fs: seq<File>, url: string)
    ensures Assigns(FileRefs(fs), url)
        <==> url != "" && exists j :: 0 <= j < |fs| && fs[j].thumbnailUrl == Some(url)
    decreases |fs|
  {
    if fs != [] {
      var n := |fs| - 1;
      FileRefsAssign(fs[..n], url);
      AssignsAppend(FileRefs(fs[..n]), FileRef(fs[n]), url);
      if Assigns(FileRef(fs[n]), url) || (url != "" && fs[n].thumbnailUrl == Some(url)) {
        assert FileRef(fs[n])[0].0 == url;
      }
      if exists j :: 0 <= j < |fs| && fs[j].thumbnailUrl == Some(url) {
        var j :| 0 <= j < |fs| && fs[j].thumbnailUrl == Some(url);
        if j < n {
          assert fs[..n][j] == fs[j];
        }
      }
      if exists j :: 0 <= j < n && fs[..n][j].thumbnailUrl == Some(url) {
        var j :| 0 <= j < n && fs[..n][j].thumbnailUrl == Some(url);
        assert fs[j] == fs[..n][j];
      }
    }
  }

  /** The assignments of one message name exactly the URLs it references. */
  lemma MessageRefsAssign(m: Message, url: string)
    ensures Assigns(SenderRefs(m.user) + FileRefs(m.files), url) <==> url != "" && MessageRefers(m, url)
  {
    AssignsAppend(SenderRefs(m.user), FileRefs(m.files), url);
    FileRefsAssign(m.files, url);
    if Assigns(SenderRefs(m.user), url) {
      assert SenderRefs(m.user)[0].0 == url;
    }
  }

  /** The assignments of the first loop name exactly the URLs the messages reference. */
  lemma {:induction false} RefsAssign(ms: seq<Message>, url: string)
    ensures Assigns(Refs(ms), url) <==> Referenced(ms, url)
    decreases |ms|
  {
    if ms != [] {
      var n := |ms| - 1;
      var m := ms[n];
      RefsAssign(ms[..n], url);
      assert Refs(ms) == Refs(ms[..n]) + (SenderRefs(m.user) + FileRefs(m.files));
      AssignsAppend(Refs(ms[..n]), SenderRefs(m.user) + FileRefs(m.files), url);
      MessageRefsAssign(m, url);
      if Referenced(ms, url) {
        var i :| 0 <= i < |ms| && MessageRefers(ms[i], url);
        if i < n {
          assert ms[..n][i] == ms[i];
        }
      }
      if Referenced(ms[..n], url) {
        var i :| 0 <= i < n && MessageRefers(ms[..n][i], url);
        assert ms[i] == ms[..n][i];
      }
    }
  }

  /**
   * The dictionary `cache_thumbs` builds holds exactly the truthy avatar URLs
   * of resolved senders and the truthy thumbnail URLs of files.
   */
  lemma UrlMapDomain(ms: seq<Message>, url: string)
    ensures url in UrlMap(ms) <==> Referenced(ms, url)
  {
    ToMapKeys(Refs(ms), url);
    RefsAssign(ms, url);
  }

  /** A message whose sender and files carry the cache keys of their image URLs. */
  predicate WellKeyedMessage(m: Message, md5hex: string -> string) {
    (m.user.Known? ==> WellKeyedUser(m.user.user, md5hex)) &&
    forall j :: 0 <= j < |m.files| ==> WellKeyedFile(m.files[j], md5hex)
  }

  /** Every assignment maps a URL to its cache key. */
  predicate PairsKeyed(pairs: seq<(string, Option<string>)>, md5hex: string -> string) {
    forall k :: 0 <= k < |pairs| ==> pairs[k].1 == Some(CacheKey(pairs[k].0, md5hex))
  }

  lemma {:induction false} FileRefsKeyed(fs: seq<File>, md5hex: string -> string)
    requires forall j :: 0 <= j < |fs| ==> WellKeyedFile(fs[j], md5hex)
    ensures PairsKeyed(FileRefs(fs), md5hex)
    decreases |fs|
  {
    if fs != [] {
      var n := |fs| - 1;
      assert forall j :: 0 <= j < n ==> fs[..n][j] == fs[j];
      FileRefsKeyed(fs[..n], md5hex);
      assert WellKeyedFile(fs[n], md5hex);
    }
  }

  lemma {:induction false} RefsKeyed(ms: seq<Message>, md5hex: string -> string)
    requires forall i :: 0 <= i < |ms| ==> WellKeyedMessage(ms[i], md5hex)
    ensures PairsKeyed(Refs(ms), md5hex)
    decreases |ms|
  {
    if ms != [] {
      var n := |ms| - 1;
      assert forall i :: 0 <= i < n ==> ms[..n][i] == ms[i];
      RefsKeyed(ms[..n], md5hex);
      assert WellKeyedMessage(ms[n], md5hex);
      FileRefsKeyed(ms[n].files, md5hex);
    }
  }

  /**
   * For normalised messages, each URL is cached under `.cache/` plus the MD5
   * hex digest of the URL plus `.png`, whichever message assigned it last.
   */
  lemma UrlMapKeys(ms: seq<Message>, md5hex: string -> string)
    requires forall i :: 0 <= i < |ms| ==> WellKeyedMessage(ms[i], md5hex)
    ensures forall url :: url in UrlMap(ms) ==>
      UrlMap(ms)[url] == Some(CacheKey(url, md5hex)) &&
      CachePath(UrlMap(ms)[url]) == ".cache/" + md5hex(url) + ".png"
  {
    RefsKeyed(ms, md5hex);
    ToMapFunctional(Refs(ms), u => Some(CacheKey(u, md5hex)));
  }
}
