/**
 * `upload_to_ftp` and `update_html_on_server`: the web site reached over FTP
 * is a class whose file map and directory set the upload updates in place.
 * Whether the connection and login succeed, and whether the server lets the
 * image directory be created, are inputs of the model (`Network`).
 */
module Ftp {
  import opened Text
  import opened Download
  import opened FeedHtml

  /** What a file on the server holds: the HTML page as text, or image bytes. */
  datatype Content = Html(text: string) | Image(data: Bytes)

  /**
   * The FTP settings the program reads from its environment. The host is kept
   * with the others; reaching it is part of the `Network` input.
   */
  datatype FtpConfig = FtpConfig(host: string, user: string, password: string, dir: string)

  /** How the server answers: connection and login (with TLS), and `MKD ig_posts`. */
  datatype Network = Network(loginOk: bool, mkdOk: bool)

  /** `upload_to_ftp` returns a boolean, or raises out of `update_html_on_server`. */
  datatype UploadOutcome = Returned(ok: bool) | Raised

  /** The server's files and directories, as paths from the login directory. */
  datatype SiteState = SiteState(files: map<string, Content>, dirs: set<string>)

  function ImagesDir(dir: string): string
  {
    dir + "/images"
  }

  function ImageDir(dir: string): string
  {
    dir + "/images/ig_posts"
  }

  function ImagePath(dir: string, file: string): string
  {
    ImageDir(dir) + "/" + file
  }

  function IndexPath(dir: string): string
  {
    dir + "/index.html"
  }

  /** No image lands on the page: the image directory and `index.html` differ early on. */
  lemma ImagePathNotIndex(dir: string, file: string)
    ensures ImagePath(dir, file) != IndexPath(dir)
  {
    var a := ImagePath(dir, file);
    var b := IndexPath(dir);
    assert a[|dir| + 2] == 'm';
    assert b[|dir| + 2] == 'n';
  }

  /** Different files of one directory have different paths. */
  lemma ImagePathInjective(dir: string, f: string, g: string)
    requires ImagePath(dir, f) == ImagePath(dir, g)
    ensures f == g
  {
    var n := |ImageDir(dir) + "/"|;
    assert ImagePath(dir, f)[n..] == f;
    assert ImagePath(dir, g)[n..] == g;
  }

  /** The site's files after the image loop: each downloaded file found locally is stored. */
  function Stored(files: map<string, Content>, dir: string, downloaded: seq<string>, local: map<string, Bytes>)
    : map<string, Content>
    decreases |downloaded|
  {
    if downloaded == [] then files
    else
      var n := |downloaded| - 1;
      var before := Stored(files, dir, downloaded[..n], local);
      var f := downloaded[n];
      if f in local then before[ImagePath(dir, f) := Image(local[f])] else before
  }

  /**
   * The images stored are the downloaded files present locally, each with its
   * local content; every other path keeps what it held.
   */
  lemma {:induction false} StoredContents(files: map<string, Content>, dir: string, downloaded: seq<string>,
                                          local: map<string, Bytes>, path: string)
    ensures var r := Stored(files, dir, downloaded, local);
      && (forall f :: f in downloaded && f in local && path == ImagePath(dir, f) ==>
            path in r && r[path] == Image(local[f]))
      && ((forall f :: f in downloaded && f in local ==> path != ImagePath(dir, f)) ==>
            (path in r <==> path in files) && (path in files ==> r[path] == files[path]))
    decreases |downloaded|
  {
    if downloaded != [] {
      var n := |downloaded| - 1;
      StoredContents(files, dir, downloaded[..n], local, path);
      var f := downloaded[n];
      forall g | g in downloaded && g in local && path == ImagePath(dir, g)
        ensures path in Stored(files, dir, downloaded, local)
        ensures Stored(files, dir, downloaded, local)[path] == Image(local[g])
      {
        if path == ImagePath(dir, f) && f in local {
          ImagePathInjective(dir, f, g);
        } else {
          assert g != f;
          assert g in downloaded[..n] by {
            var k :| 0 <= k < |downloaded| && downloaded[k] == g;
            assert downloaded[..n][k] == g;
          }
        }
      }
      if forall g :: g in downloaded && g in local ==> path != ImagePath(dir, g) {
        forall g | g in downloaded[..n] && g in local
          ensures path != ImagePath(dir, g)
        {
          assert g in downloaded;
        }
        assert f in downloaded;
      }
    }
  }

  /**
   * The web site reached over FTP. `files` maps each path to its content and
   * `dirs` lists the directories that exist.
   */
  class FtpSite {
    var files: map<string, Content>
    var dirs: set<string>

    constructor (files0: map<string, Content>, dirs0: set<string>)
      ensures files == files0 && dirs == dirs0
    {
      files := files0;
      dirs := dirs0;
    }

    function State(): SiteState
      reads this
    {
      SiteState(files, dirs)
    }

    /** `STOR`: the file at `path` now holds `c`. */
    method Store(path: string, c: Content)
      modifies this
      ensures files == old(files)[path := c] && dirs == old(dirs)
    {
      files := files[path := c];
    }

    /** `MKD`: the directory `path` now exists. */
    method MakeDir(path: string)
      modifies this
      ensures dirs == old(dirs) + {path} && files == old(files)
    {
      dirs := dirs + {path};
    }
  }

  /**
   * `update_html_on_server`: fetch `index.html` of `dir`, rewrite its feed
   * block for the given files and, when the text changed, store it again.
   * None stands for the exception `RETR` raises when there is no page.
   */
  method UpdateHtmlOnServer(site: FtpSite, dir: string, downloaded: seq<string>, igUser: string)
    returns (r: Option<bool>)
    modifies site
    ensures var idx := IndexPath(dir);
      if idx !in old(site.files) || !old(site.files)[idx].Html? then
        r == None && site.files == old(site.files)
      else
        var html := old(site.files)[idx].text;
        var updated := RewriteFeed(html, igUser, downloaded);
        && r == Some(updated != html)
        && site.files == (if updated != html then old(site.files)[idx := Html(updated)] else old(site.files))
    ensures site.dirs == old(site.dirs)
  {
    var idx := IndexPath(dir);
    if idx !in site.files || !site.files[idx].Html? {
      return None;
    }
    var html := site.files[idx].text;
    var items := BuildItems(igUser, downloaded);
    var block := BlockOf(items, |downloaded|);
    var updated := Substitute(html, block);
    if updated != html {
      site.Store(idx, Html(updated));
      return Some(true);
    }
    return Some(false);
  }

  /** The login and `CWD` into the site directory succeed. */
  predicate Connects(s: SiteState, cfg: FtpConfig, net: Network)
  {
    cfg.user != "" && cfg.password != "" && net.loginOk && cfg.dir in s.dirs
  }

  /** `images/ig_posts` exists, or `images` does and the server lets it be created. */
  predicate ImageDirReady(s: SiteState, cfg: FtpConfig, net: Network)
  {
    ImageDir(cfg.dir) in s.dirs || (ImagesDir(cfg.dir) in s.dirs && net.mkdOk)
  }

  /** The page after the update: rewritten when it exists, None when `RETR` raises. */
  function PageUpdate(files: map<string, Content>, dir: string, downloaded: seq<string>, igUser: string)
    : Option<map<string, Content>>
  {
    var idx := IndexPath(dir);
    if idx !in files || !files[idx].Html? then None
    else
      var html := files[idx].text;
      var updated := RewriteFeed(html, igUser, downloaded);
      Some(if updated != html then files[idx := Html(updated)] else files)
  }

  /** The outcome of `upload_to_ftp` and the site it leaves. */
  function UploadEffect(s: SiteState, cfg: FtpConfig, net: Network, igUser: string,
                        downloaded: seq<string>, local: map<string, Bytes>): (UploadOutcome, SiteState)
  {
    if !Connects(s, cfg, net) || !ImageDirReady(s, cfg, net) then (Returned(false), s)
    else
      var dirs := s.dirs + {ImageDir(cfg.dir)};
      var files := Stored(s.files, cfg.dir, downloaded, local);
      match PageUpdate(files, cfg.dir, downloaded, igUser)
      case None => (Raised, SiteState(files, dirs))
      case Some(page) => (Returned(true), SiteState(page, dirs))
  }

  /**
   * `upload_to_ftp`: give up without credentials, without a connection, or
   * without an image directory; otherwise store every downloaded file found
   * locally, update the page, and report success whether or not the page
   * changed.
   */
  method UploadToFtp(site: FtpSite, cfg: FtpConfig, net: Network, igUser: string,
                     downloaded: seq<string>, local: TempDir)
    returns (outcome: UploadOutcome)
    modifies site
    ensures (outcome, site.State()) == UploadEffect(old(site.State()), cfg, net, igUser, downloaded, local.files)
  {
    if cfg.user == "" || cfg.password == "" {
      return Returned(false);
    }
    if !net.loginOk || cfg.dir !in site.dirs {
      return Returned(false);
    }
    if ImageDir(cfg.dir) !in site.dirs {
      if ImagesDir(cfg.dir) !in site.dirs || !net.mkdOk {
        return Returned(false);
      }
      site.MakeDir(ImageDir(cfg.dir));
    }
    assert site.dirs == old(site.dirs) + {ImageDir(cfg.dir)};
    for i := 0 to |downloaded|
      invariant site.files == Stored(old(site.files), cfg.dir, downloaded[..i], local.files)
      invariant site.dirs == old(site.dirs) + {ImageDir(cfg.dir)}
    {
      assert downloaded[..i + 1][..i] == downloaded[..i];
      var f := downloaded[i];
      if f in local.files {
        site.Store(ImagePath(cfg.dir, f), Image(local.files[f]));
      }
    }
    assert downloaded[..|downloaded|] == downloaded;
    var changed := UpdateHtmlOnServer(site, cfg.dir, downloaded, igUser);
    if changed.None? {
      return Raised;
    }
    return Returned(true);
  }

  /**
   * The upload fails, and changes nothing on the server, exactly when the
   * credentials are empty, the connection or login fails, or the image
   * directory neither exists nor can be created.
   */
  lemma UploadFalseIff(s: SiteState, cfg: FtpConfig, net: Network, igUser: string,
                       downloaded: seq<string>, local: map<string, Bytes>)
    ensures var (outcome, s') := UploadEffect(s, cfg, net, igUser, downloaded, local);
      && (outcome == Returned(false) <==>
            cfg.user == "" || cfg.password == "" || !net.loginOk || cfg.dir !in s.dirs
            || (ImageDir(cfg.dir) !in s.dirs && (ImagesDir(cfg.dir) !in s.dirs || !net.mkdOk)))
      && (outcome == Returned(false) ==> s' == s)
  {
  }

  /**
   * Once connected with an image directory, the upload raises exactly when the
   * site has no `index.html` page; otherwise it returns true, whether or not
   * the page changed.
   */
  lemma UploadTrueIff(s: SiteState, cfg: FtpConfig, net: Network, igUser: string,
                      downloaded: seq<string>, local: map<string, Bytes>)
    requires Connects(s, cfg, net) && ImageDirReady(s, cfg, net)
    ensures var (outcome, _) := UploadEffect(s, cfg, net, igUser, downloaded, local);
      var idx := IndexPath(cfg.dir);
      && (outcome == Raised <==> idx !in s.files || !s.files[idx].Html?)
      && (outcome == Returned(true) <==> idx in s.files && s.files[idx].Html?)
  {
    var idx := IndexPath(cfg.dir);
    StoredContents(s.files, cfg.dir, downloaded, local, idx);
    forall f | f in downloaded && f in local
      ensures idx != ImagePath(cfg.dir, f)
    {
      ImagePathNotIndex(cfg.dir, f);
    }
  }

  /**
   * After a successful upload every downloaded file found locally is on the
   * server with its local content, the image directory exists, and the page
   * holds the rewrite of the page that was there before.
   */
  lemma UploadPublishes(s: SiteState, cfg: FtpConfig, net: Network, igUser: string,
                        downloaded: seq<string>, local: map<string, Bytes>)
    requires UploadEffect(s, cfg, net, igUser, downloaded, local).0 == Returned(true)
    ensures var s' := UploadEffect(s, cfg, net, igUser, downloaded, local).1;
      var idx := IndexPath(cfg.dir);
      && ImageDir(cfg.dir) in s'.dirs && s.dirs <= s'.dirs
      && (forall f :: f in downloaded && f in local ==>
            ImagePath(cfg.dir, f) in s'.files && s'.files[ImagePath(cfg.dir, f)] == Image(local[f]))
      && idx in s.files && s.files[idx].Html? && idx in s'.files
      && s'.files[idx] == Html(RewriteFeed(s.files[idx].text, igUser, downloaded))
  {
    var idx := IndexPath(cfg.dir);
    var stored := Stored(s.files, cfg.dir, downloaded, local);
    StoredContents(s.files, cfg.dir, downloaded, local, idx);
    forall f | f in downloaded && f in local
      ensures idx != ImagePath(cfg.dir, f)
    {
      ImagePathNotIndex(cfg.dir, f);
    }
    forall f | f in downloaded && f in local
      ensures ImagePath(cfg.dir, f) in stored && stored[ImagePath(cfg.dir, f)] == Image(local[f])
    {
      StoredContents(s.files, cfg.dir, downloaded, local, ImagePath(cfg.dir, f));
      ImagePathNotIndex(cfg.dir, f);
    }
  }

  /**
   * The page is stored again only when the rewrite changed it, and it can only
   * change when the page has a feed block; without one, nothing is stored and
   * `update_html_on_server` reports false.
   */
  lemma PageChangesOnlyWithBlock(files: map<string, Content>, dir: string, downloaded: seq<string>, igUser: string)
    requires IndexPath(dir) in files && files[IndexPath(dir)].Html?
    ensures var html := files[IndexPath(dir)].text;
      FindFeedBlock(html).None? ==> PageUpdate(files, dir, downloaded, igUser) == Some(files)
  {
    SubstituteFrame(files[IndexPath(dir)].text, FeedBlock(igUser, downloaded));
  }

  /**
   * A page without a feed block is left as it is, yet the upload still
   * reports success: `upload_to_ftp` ignores what `update_html_on_server`
   * returns.
   */
  lemma UploadTrueWithoutBlock(s: SiteState, cfg: FtpConfig, net: Network, igUser: string,
                               downloaded: seq<string>, local: map<string, Bytes>)
    requires Connects(s, cfg, net) && ImageDirReady(s, cfg, net)
    requires IndexPath(cfg.dir) in s.files && s.files[IndexPath(cfg.dir)].Html?
    requires FindFeedBlock(s.files[IndexPath(cfg.dir)].text).None?
    ensures var (outcome, s') := UploadEffect(s, cfg, net, igUser, downloaded, local);
      outcome == Returned(true) && s'.files[IndexPath(cfg.dir)] == s.files[IndexPath(cfg.dir)]
  {
    UploadTrueIff(s, cfg, net, igUser, downloaded, local);
    UploadPublishes(s, cfg, net, igUser, downloaded, local);
    SubstituteFrame(s.files[IndexPath(cfg.dir)].text, FeedBlock(igUser, downloaded));
  }
}
