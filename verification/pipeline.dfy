/**
 * `main` and the steps it strings together: fetch the newest posts, compare
 * their ids with the cache, download the images, upload them and the page,
 * and remember the ids only when the upload succeeded. The Instagram profile
 * and the image fetches are inputs of the model.
 */
module Pipeline {
  import opened Text
  import opened Download
  import opened FeedHtml
  import opened Ftp

  // ----- Configuration -----

  const MaxPosts: nat := 6
  const CaptionLimit: nat := 100

  datatype Config = Config(igUsername: string, ftp: FtpConfig, maxPosts: nat)

  /** `os.environ.get(key, default)`. */
  function EnvOr(env: map<string, string>, key: string, default: string): string
  {
    if key in env then env[key] else default
  }

  /** The settings the script reads at start-up, with its defaults. */
  function ConfigFromEnv(env: map<string, string>): (c: Config)
    ensures c.maxPosts == MaxPosts
    ensures "FTP_USER" !in env ==> c.ftp.user == ""
    ensures "FTP_PASS" !in env ==> c.ftp.password == ""
  {
    Config(
      EnvOr(env, "IG_USERNAME", "nakano.gaoo_event"),
      FtpConfig(
        EnvOr(env, "FTP_HOST", "ftp.lolipop.jp"),
        EnvOr(env, "FTP_USER", ""),
        EnvOr(env, "FTP_PASS", ""),
        EnvOr(env, "FTP_DIR", "gaoo")),
      MaxPosts)
  }

  /**
   * An environment without FTP credentials never gets past the first check
   * of the upload: it reports failure and leaves the server as it was.
   */
  lemma NoCredentialsNoUpload(env: map<string, string>, s: SiteState, net: Network,
                              downloaded: seq<string>, local: map<string, Bytes>)
    requires "FTP_USER" !in env || "FTP_PASS" !in env
    ensures var cfg := ConfigFromEnv(env);
      UploadEffect(s, cfg.ftp, net, cfg.igUsername, downloaded, local) == (Returned(false), s)
  {
    var cfg := ConfigFromEnv(env);
    UploadFalseIff(s, cfg.ftp, net, cfg.igUsername, downloaded, local);
  }

  // ----- Fetching the posts -----

  /** A post as the Instagram client library reports it. */
  datatype IgPost = IgPost(shortcode: string, url: string, dateUtc: string, caption: Option<string>, isVideo: bool)

  /** `s[:n]`. */
  function Prefix(s: string, n: nat): string
  {
    if |s| <= n then s else s[..n]
  }

  /** The record kept for a post: `(post.caption or "")[:100]` as its caption. */
  function Record(p: IgPost): Post
  {
    var caption := match p.caption case None => "" case Some(c) => c;
    Post(p.shortcode, p.url, p.dateUtc, Prefix(caption, CaptionLimit), p.isVideo)
  }

  /** The records of the first `max` posts of the profile; none when the profile lookup failed. */
  function FetchedPosts(profile: Option<seq<IgPost>>, max: nat): seq<Post>
  {
    match profile
    case None => []
    case Some(all) =>
      var n := if |all| < max then |all| else max;
      seq(n, i requires 0 <= i < n => Record(all[i]))
  }

  /**
   * `fetch_instagram_posts`: walks the profile's posts newest first and stops
   * at the `max`-th. None stands for a profile that could not be looked up.
   */
  method FetchInstagramPosts(profile: Option<seq<IgPost>>, max: nat) returns (posts: seq<Post>)
    ensures posts == FetchedPosts(profile, max)
  {
    posts := [];
    if profile.None? {
      return;
    }
    var all := profile.value;
    var i := 0;
    while i < |all|
      invariant 0 <= i <= |all| && i <= max
      invariant posts == seq(i, k requires 0 <= k < i => Record(all[k]))
    {
      if i >= max {
        break;
      }
      posts := posts + [Record(all[i])];
      i := i + 1;
    }
  }

  /**
   * No posts when the profile lookup failed; otherwise at most `max` posts are
   * kept, the newest first, each with its own id, address, date and kind, and
   * its caption cut to its first 100 characters.
   */
  lemma FetchedPostsSpec(profile: Option<seq<IgPost>>, max: nat)
    ensures var posts := FetchedPosts(profile, max);
      && |posts| <= max
      && (profile.None? ==> posts == [])
      && (profile.Some? ==> |posts| == if |profile.value| < max then |profile.value| else max)
      && forall i :: 0 <= i < |posts| ==>
           var p := profile.value[i];
           && posts[i].shortcode == p.shortcode && posts[i].url == p.url
           && posts[i].isVideo == p.isVideo && posts[i].timestamp == p.dateUtc
           && |posts[i].caption| <= CaptionLimit
           && (p.caption.None? ==> posts[i].caption == "")
           && (p.caption.Some? ==> posts[i].caption <= p.caption.value
                                   && (|p.caption.value| <= CaptionLimit ==> posts[i].caption == p.caption.value)
                                   && (|p.caption.value| > CaptionLimit ==>
                                         posts[i].caption == p.caption.value[..CaptionLimit]))
  {
  }

  // ----- The cache -----

  /** The cache file: the ids of the last published posts, or no file at all. */
  class CacheStore {
    var file: Option<seq<string>>

    constructor (file0: Option<seq<string>>)
      ensures file == file0
    {
      file := file0;
    }

    /** `load_cache()["post_ids"]`: a missing file reads as no ids. */
    method Load() returns (ids: seq<string>)
      ensures ids == CachedIds(file)
    {
      ids := if file.Some? then file.value else [];
    }

    /** `save_cache`: the file now holds exactly the given ids. */
    method Save(ids: seq<string>)
      modifies this
      ensures file == Some(ids)
    {
      file := Some(ids);
    }
  }

  function CachedIds(file: Option<seq<string>>): seq<string>
  {
    match file
    case None => []
    case Some(ids) => ids
  }

  /** `[p["shortcode"] for p in posts]`. */
  function CurrentIds(posts: seq<Post>): (ids: seq<string>)
    ensures |ids| == |posts| && forall i :: 0 <= i < |posts| ==> ids[i] == posts[i].shortcode
  {
    seq(|posts|, i requires 0 <= i < |posts| => posts[i].shortcode)
  }

  // ----- The run -----

  datatype RunOutcome = NoPosts | NoNewPosts | NothingDownloaded | Published | UploadFailed | Crashed

  /** The two checks before any download: posts found, and ids different from the cached ones. */
  function Gate(posts: seq<Post>, cache: Option<seq<string>>): Option<RunOutcome>
  {
    if posts == [] then Some(NoPosts)
    else if CurrentIds(posts) == CachedIds(cache) then Some(NoNewPosts)
    else None
  }

  /** What each post's image fetch returns, in the order of the posts. */
  function Fetches(posts: seq<Post>, fetch: nat -> Option<Bytes>): seq<Option<Bytes>>
  {
    seq(|posts|, i requires 0 <= i < |posts| => fetch(i))
  }

  function OutcomeOf(u: UploadOutcome): RunOutcome
  {
    match u
    case Returned(ok) => if ok then Published else UploadFailed
    case Raised => Crashed
  }

  /**
   * `main`: stop when no post was found, when the ids equal the cached ones,
   * or when no image could be downloaded; otherwise upload, and save the ids
   * only when the upload reported success.
   */
  method Run(cfg: Config, profile: Option<seq<IgPost>>, fetch: nat -> Option<Bytes>, net: Network,
             cache: CacheStore, temp: TempDir, site: FtpSite)
    returns (outcome: RunOutcome)
    modifies cache, temp, site
    ensures var posts := FetchedPosts(profile, cfg.maxPosts);
      var gate := Gate(posts, old(cache.file));
      if gate.Some? then
        && outcome == gate.value
        && cache.file == old(cache.file) && temp.files == old(temp.files) && site.State() == old(site.State())
      else
        var fetched := Fetches(posts, fetch);
        var downloaded := Names(Kept(posts, fetched));
        && temp.files == old(temp.files) + Written(posts, fetched)
        && if downloaded == [] then
             outcome == NothingDownloaded && cache.file == old(cache.file) && site.State() == old(site.State())
           else
             var (u, s') := UploadEffect(old(site.State()), cfg.ftp, net, cfg.igUsername, downloaded, temp.files);
             && outcome == OutcomeOf(u)
             && site.State() == s'
             && cache.file == (if outcome == Published then Some(CurrentIds(posts)) else old(cache.file))
  {
    var posts := FetchInstagramPosts(profile, cfg.maxPosts);
    if posts == [] {
      return NoPosts;
    }
    var cached := cache.Load();
    var ids := CurrentIds(posts);
    if ids == cached {
      return NoNewPosts;
    }
    var downloaded := DownloadImages(posts, Fetches(posts, fetch), temp);
    if downloaded == [] {
      return NothingDownloaded;
    }
    var u := UploadToFtp(site, cfg.ftp, net, cfg.igUsername, downloaded, temp);
    outcome := OutcomeOf(u);
    if outcome == Published {
      cache.Save(ids);
    }
  }

  /**
   * The checks before any download: the run stops for no posts exactly when
   * there are none; otherwise it stops for no new posts exactly when the ids,
   * in order, equal the cached ones (a missing cache holding none), and goes on
   * exactly when they differ.
   */
  lemma GateSpec(posts: seq<Post>, cache: Option<seq<string>>)
    ensures Gate(posts, cache) == Some(NoPosts) <==> posts == []
    ensures posts != [] ==> (Gate(posts, cache) == Some(NoNewPosts) <==> CurrentIds(posts) == CachedIds(cache))
    ensures posts != [] ==> (Gate(posts, cache).None? <==> CurrentIds(posts) != CachedIds(cache))
    ensures posts != [] && cache.None? ==> Gate(posts, cache).None?
  {
  }

  /** The same ids in any other order count as new posts. */
  lemma GateOrderSensitive(posts: seq<Post>, ids: seq<string>)
    requires multiset(ids) == multiset(CurrentIds(posts)) && ids != CurrentIds(posts)
    ensures Gate(posts, Some(ids)).None?
  {
    GateSpec(posts, Some(ids));
  }

  /**
   * A second run over the same posts, after one that published, stops at the
   * id check and changes nothing: the site, the temporary directory and the
   * cache stay as the first run left them (`t1`, `s1`).
   */
  method RunTwice(cfg: Config, profile: Option<seq<IgPost>>, fetch: nat -> Option<Bytes>, net: Network,
                  cache: CacheStore, temp: TempDir, site: FtpSite)
    returns (first: RunOutcome, second: RunOutcome, ghost t1: map<string, Bytes>, ghost s1: SiteState)
    modifies cache, temp, site
    ensures var posts := FetchedPosts(profile, cfg.maxPosts);
      var fetched := Fetches(posts, fetch);
      first == Published ==>
        && second == NoNewPosts
        && cache.file == Some(CurrentIds(posts))
        && t1 == old(temp.files) + Written(posts, fetched)
        && s1 == UploadEffect(old(site.State()), cfg.ftp, net, cfg.igUsername, Names(Kept(posts, fetched)), t1).1
        && temp.files == t1 && site.State() == s1
  {
    first := Run(cfg, profile, fetch, net, cache, temp, site);
    ghost var afterFirst := cache.file;
    t1 := temp.files;
    s1 := site.State();
    second := Run(cfg, profile, fetch, net, cache, temp, site);
    if first == Published {
      GateSpec(FetchedPosts(profile, cfg.maxPosts), afterFirst);
    }
  }

  // ----- The published page -----

  /** Post file names hold neither `<` nor `"`. */
  lemma FileNamePlain(i: nat)
    ensures NoChar(FileName(i), '<') && NoChar(FileName(i), '"')
  {
    var d := NatToString(i + 1);
    assert NoChar(d, '<') && NoChar(d, '"');
    NoCharConcat("ig_post_", d, '<');
    NoCharConcat("ig_post_" + d, ".jpg", '<');
    NoCharConcat("ig_post_", d, '"');
    NoCharConcat("ig_post_" + d, ".jpg", '"');
  }

  /**
   * The page a run publishes lists exactly the downloaded files, in order, and
   * (for a user name without `<`) publishing the same files again leaves it as
   * it is.
   */
  lemma PublishedPage(html: string, user: string, posts: seq<Post>, fetched: seq<Option<Bytes>>)
    requires |fetched| == |posts|
    ensures var downloaded := Names(Kept(posts, fetched));
      && ParseItems(user, ItemsMarkup(user, downloaded)) == Some(downloaded)
      && (NoChar(user, '<') ==>
            RewriteFeed(RewriteFeed(html, user, downloaded), user, downloaded) == RewriteFeed(html, user, downloaded))
  {
    var downloaded := Names(Kept(posts, fetched));
    forall k | 0 <= k < |downloaded|
      ensures NoChar(downloaded[k], '<') && NoChar(downloaded[k], '"')
    {
      FileNamePlain(Kept(posts, fetched)[k]);
    }
    ItemsRoundTrip(user, downloaded);
    if NoChar(user, '<') {
      RewriteIdempotent(html, user, downloaded);
    }
  }
}
