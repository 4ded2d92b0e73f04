# Instagram feed update for the がおー web site, modelled in Dafny

`scripts/update_ig_feed.py` keeps the Instagram section of a small web site up
to date. It runs in six steps:

1. It fetches the newest posts of one Instagram account, at most six.
2. It compares their ids with the ids cached by the last run.
3. It downloads the images of the posts that are not videos.
4. It uploads those images over FTP into `images/ig_posts/`.
5. It rewrites the feed block of the site's `index.html`.
6. It records the ids in the cache, but only when the upload reported success.

This project models that script and proves properties of the model. It has
five modules:

- `Text`: literal search and decimal rendering.
- `FeedHtml`: the generated feed block and the first-match search that stands
  in for the script's regular expression.
- `Download`: the image download loop over a temporary directory.
- `Ftp`: the site reached over FTP, as a class whose file map and directory
  set are updated in place. It also holds the upload and the page update.
- `Pipeline`: the configuration, the post fetch, the cache, and `main`.

The parts that cannot be seen from the script are inputs of the model:

- the Instagram profile, an optional list of posts;
- what each image fetch returns, as a function from the post's index to optional bytes;
- whether the FTP login succeeds;
- whether the server lets the image directory be created.

The regular expression is
`OPEN[^>]*>.*?GRID[^>]*>.*?</div>` with DOTALL, count 1. It is modelled twice:

- as a language: `IsMatch` holds when positions in the page spell one match;
- as a staged literal search: `FindFeedBlock` finds the first opening marker,
  then its first `>`, then the first grid marker after it, then that marker's
  first `>`, then the first `</div>` after that.

The search is proved to return a match (`FindFeedBlockSound`). It is proved to
lie at or before every position of every other match (`FindFeedBlockLeast`).
That is the leftmost, lazy match Python's `re.sub` replaces.

## Model

| member | source | states |
|---|---|---|
| Text.FindFromFirst | scripts/update_ig_feed.py:130-131 | the literal search returns the first occurrence at or after the start position, and None only when there is none |
| Text.DecimalRoundTrip | scripts/update_ig_feed.py:85 | reading the decimal rendering of `i+1` back gives the number |
| Text.NatToStringInjective | scripts/update_ig_feed.py:85 | different numbers render as different digit strings |
| FeedHtml.GridLayout | scripts/update_ig_feed.py:122-123 | columns are at most 3 and at most the file count, equal to one of them; the maximum width is 220 per column |
| FeedHtml.GridLayoutExamples | scripts/update_ig_feed.py:122-123 | 1 file gives 1 column and 220px, 2 files give 2 and 440px, 5 files give 3 and 660px |
| FeedHtml.BuildItems | scripts/update_ig_feed.py:115-120 | the accumulating loop yields exactly the item markup of the files, in list order |
| FeedHtml.ItemsRoundTrip | scripts/update_ig_feed.py:116-120 | the items read back as exactly the file list: one link and image per file, in order, each `src` being `images/ig_posts/` plus the file name |
| FeedHtml.FindFeedBlockSound | scripts/update_ig_feed.py:130-131 | what the search finds is a match of the pattern, with no opening marker before it |
| FeedHtml.FindFeedBlockLeast | scripts/update_ig_feed.py:130-131 | for every match, the search finds one whose every position is at or before that match's |
| FeedHtml.FindFeedBlockNone | scripts/update_ig_feed.py:130-131 | the search finds nothing exactly when the page has no match |
| FeedHtml.SubstituteFrame | scripts/update_ig_feed.py:131 | without a match the page is returned unchanged; with one, the text before the match and after its `</div>` is kept and the block stands in between, so only the first match is replaced |
| FeedHtml.RewriteIdempotent | scripts/update_ig_feed.py:114-131 | rewriting the rewritten page with the same files and user gives the same page |
| Download.FileNameInjective | scripts/update_ig_feed.py:85 | posts at different indices get different `ig_post_<i+1>.jpg` names |
| Download.DownloadImages | scripts/update_ig_feed.py:73-101 | the loop returns the names of the kept posts and writes each kept post's data under its name |
| Download.KeptIff | scripts/update_ig_feed.py:80-96 | a post's index is kept exactly when the post is no video and its fetch returned data |
| Download.KeptIncreasing | scripts/update_ig_feed.py:80-96 | kept indices are below the post count and strictly increasing |
| Download.KeptLength | scripts/update_ig_feed.py:80-96 | at most one file per post |
| Download.DownloadedNames | scripts/update_ig_feed.py:73-101 | the returned names number at most the posts, are pairwise different, and include a post's name exactly when it is no video and was fetched |
| Download.NoVideoFile | scripts/update_ig_feed.py:81-83 | a video post gets neither a name in the list nor a file |
| Download.WrittenContents | scripts/update_ig_feed.py:85-96 | the written files are exactly the kept posts' names, each holding its post's fetched data |
| Ftp.ImagePathNotIndex | scripts/update_ig_feed.py:162-183 | no image path is the page's path |
| Ftp.StoredContents | scripts/update_ig_feed.py:173-179 | after the image loop each downloaded file found locally is on the server with its local content, and every other path keeps what it held |
| Ftp.FtpSite.Store | scripts/update_ig_feed.py:178 | `STOR` sets one path and nothing else |
| Ftp.FtpSite.MakeDir | scripts/update_ig_feed.py:166 | `MKD` adds one directory and nothing else |
| Ftp.UpdateHtmlOnServer | scripts/update_ig_feed.py:103-141 | no page means an exception and no change; otherwise the result is whether the rewrite changed the page, which is stored only then |
| Ftp.UploadToFtp | scripts/update_ig_feed.py:143-187 | the outcome and the new site state are those of `UploadEffect` |
| Ftp.UploadFalseIff | scripts/update_ig_feed.py:145-171 | the upload returns false exactly for empty credentials, a failed connection or login, or an image directory that neither exists nor can be made, and then changes nothing |
| Ftp.UploadTrueIff | scripts/update_ig_feed.py:108-111 | once connected with an image directory, the upload raises exactly when there is no page and otherwise returns true |
| Ftp.UploadPublishes | scripts/update_ig_feed.py:160-187 | after a true upload the image directory exists, every downloaded local file is stored with its content, and the page holds the rewrite of the old page |
| Ftp.PageChangesOnlyWithBlock | scripts/update_ig_feed.py:131-141 | a page without a feed block is not stored again |
| Ftp.UploadTrueWithoutBlock | scripts/update_ig_feed.py:183-187 | a page without a feed block stays as it was, yet the upload returns true |
| Pipeline.ConfigFromEnv | scripts/update_ig_feed.py:25-30 | at most 6 posts; a missing `FTP_USER` or `FTP_PASS` reads as empty |
| Pipeline.NoCredentialsNoUpload | scripts/update_ig_feed.py:145-147 | an environment without FTP credentials leads to a false upload that changes nothing |
| Pipeline.FetchInstagramPosts | scripts/update_ig_feed.py:37-71 | the loop returns the records of the profile's first `max` posts, or none when the profile lookup failed |
| Pipeline.FetchedPostsSpec | scripts/update_ig_feed.py:53-68 | no posts when the profile lookup failed; otherwise the first min(count, `max`) posts, in profile order, each keeping id, address, date and kind, with a caption that is exactly the original's first 100 characters (all of it when shorter, empty without a caption) |
| Pipeline.CacheStore.Load | scripts/update_ig_feed.py:189-193 | a missing cache file reads as no ids |
| Pipeline.CacheStore.Save | scripts/update_ig_feed.py:195-201 | the cache then holds exactly the given ids |
| Pipeline.CurrentIds | scripts/update_ig_feed.py:214 | one id per post, each the post's shortcode, in order |
| Pipeline.Run | scripts/update_ig_feed.py:203-238 | no posts, unchanged ids, or no download stop the run with nothing uploaded and no cache write; otherwise the outcome follows the upload, and the cache is written only on a true upload, with exactly the current ids |
| Pipeline.GateSpec | scripts/update_ig_feed.py:207-218 | the run stops for no posts exactly when there are none; otherwise it stops for no new posts exactly when the ids, in order, equal the cached ones, and goes on exactly when they differ; a missing cache lets any posts through |
| Pipeline.GateOrderSensitive | scripts/update_ig_feed.py:216 | the same ids in any other order (an equal multiset, a different sequence) count as new |
| Pipeline.RunTwice | scripts/update_ig_feed.py:212-234 | after a published run over the same posts, a second run stops at the id check and leaves the site, the temporary directory and the cache as the first run left them; the cache holds the posts' ids |
| Pipeline.FileNamePlain | scripts/update_ig_feed.py:85 | post file names hold neither `<` nor `"` |
| Pipeline.PublishedPage | scripts/update_ig_feed.py:114-131 | the published items read back as the downloaded names for any user name, and, for a user name without `<`, publishing the same names again leaves the page as it is |

## Left out

- The Instagram client library and its installation are not modelled. The profile's posts are an input, with None for a profile that cannot be looked up. An exception while iterating the posts is not modelled.
- Image fetching over HTTP (request headers, timeout, response size) is an input per post index. A fetch that fails and a file write that fails both show up as no data. Creating the temporary directory is not modelled.
- FTP transport details (host, port 21, TLS, `PROT P`, `QUIT`) are left out. Only the outcome of connect and login is an input.
- `CWD` into the site directory succeeds when that directory exists, and `CWD /<dir>` is taken to return there: paths are relative to the login directory.
- A failing `STOR` raises in the script; the model lets every `STOR` succeed.
- A missing `index.html` raises out of `RETR`, and a page that is not UTF-8 raises out of its decoding. Both are modelled as a page that is absent or not `Html`, giving the `Raised`/`Crashed` outcome.
- UTF-8 decoding and encoding of the page are not modelled: the page is a string of characters.
- `re.sub` processes backslash escapes in the replacement text. The model inserts the block verbatim, which agrees whenever the user name and file names hold no backslash. File names never do.
- A general regular-expression engine is not modelled. The one pattern is modelled by the staged literal search, proved equal to its leftmost lazy match.
- The cache is an optional list of ids. JSON parsing is not modelled, nor a malformed file, a file without `post_ids`, or the `updated_at` timestamp.
- Logging, the log clock and `hashlib` are left out. `sys.exit(1)` is the `UploadFailed` outcome.
- FeedHtml.RewriteIdempotent: requires that the user name and the file names hold no `<`. That is stronger than needed (no `</div>` inside the items would do), and it holds for the default user name and for every `ig_post_<n>.jpg` name.
- Pipeline.PublishedPage: the idempotence half holds for user names without `<`, for the same reason as FeedHtml.RewriteIdempotent; the read-back half holds for every user name.
- Pipeline.FetchInstagramPosts: the post limit is a natural number. The script always passes 6, so a negative limit is not modelled.
