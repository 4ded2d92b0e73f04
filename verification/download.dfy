/**
 * `download_images`: every post that is not a video is fetched and written to
 * the temporary directory as `ig_post_<i+1>.jpg`, `i` being the post's index in
 * the list; a fetch that fails is skipped. What each fetch returns is an input
 * of the model (the `fetched` sequence), standing for the network.
 */
module Download {
  import opened Text

  newtype byte = x: int | 0 <= x < 256

  type Bytes = seq<byte>

  /** The record `fetch_instagram_posts` builds for one post. */
  datatype Post = Post(shortcode: string, url: string, timestamp: string, caption: string, isVideo: bool)

  /** The local file name of the post at index `i`: `f"ig_post_{i+1}.jpg"`. */
  function FileName(i: nat): string
  {
    "ig_post_" + NatToString(i + 1) + ".jpg"
  }

  /** Posts at different indices get different file names. */
  lemma FileNameInjective(i: nat, j: nat)
    requires FileName(i) == FileName(j)
    ensures i == j
  {
    var a := FileName(i);
    var b := FileName(j);
    assert a[8..|a| - 4] == NatToString(i + 1);
    assert b[8..|b| - 4] == NatToString(j + 1);
    NatToStringInjective(i + 1, j + 1);
  }

  /** The temporary download directory: file name to content. */
  class TempDir {
    var files: map<string, Bytes>

    constructor ()
      ensures files == map[]
    {
      files := map[];
    }
  }

  /**
   * The indices of the posts whose image ends up on disk, in list order:
   * those that are not videos and whose fetch returned data.
   */
  function Kept(posts: seq<Post>, fetched: seq<Option<Bytes>>): seq<nat>
    requires |fetched| == |posts|
    decreases |posts|
  {
    if posts == [] then []
    else
      var i := |posts| - 1;
      Kept(posts[..i], fetched[..i]) + (if !posts[i].isVideo && fetched[i].Some? then [i] else [])
  }

  /** The file names of the given indices. */
  function Names(idx: seq<nat>): seq<string>
  {
    seq(|idx|, k requires 0 <= k < |idx| => FileName(idx[k]))
  }

  /** What the loop leaves in the temporary directory, beyond what was there. */
  function Written(posts: seq<Post>, fetched: seq<Option<Bytes>>): map<string, Bytes>
    requires |fetched| == |posts|
    decreases |posts|
  {
    if posts == [] then map[]
    else
      var i := |posts| - 1;
      var before := Written(posts[..i], fetched[..i]);
      if !posts[i].isVideo && fetched[i].Some? then before[FileName(i) := fetched[i].value] else before
  }

  /**
   * Walks the posts in order: skips videos, and for every other post whose
   * fetch returned data writes the file and records its name.
   */
  method DownloadImages(posts: seq<Post>, fetched: seq<Option<Bytes>>, dir: TempDir)
    returns (downloaded: seq<string>)
    requires |fetched| == |posts|
    modifies dir
    ensures downloaded == Names(Kept(posts, fetched))
    ensures dir.files == old(dir.files) + Written(posts, fetched)
  {
    downloaded := [];
    for i := 0 to |posts|
      invariant downloaded == Names(Kept(posts[..i], fetched[..i]))
      invariant dir.files == old(dir.files) + Written(posts[..i], fetched[..i])
    {
      assert posts[..i + 1][..i] == posts[..i];
      assert fetched[..i + 1][..i] == fetched[..i];
      if posts[i].isVideo {
        continue;
      }
      match fetched[i]
      case None =>
      case Some(data) =>
        dir.files := dir.files[FileName(i) := data];
        downloaded := downloaded + [FileName(i)];
    }
    assert posts[..|posts|] == posts;
    assert fetched[..|fetched|] == fetched;
  }

  /** A post's index is kept exactly when it is no video and its fetch returned data. */
  lemma {:induction false} KeptIff(posts: seq<Post>, fetched: seq<Option<Bytes>>, i: nat)
    requires |fetched| == |posts|
    ensures i in Kept(posts, fetched) <==> i < |posts| && !posts[i].isVideo && fetched[i].Some?
    decreases |posts|
  {
    if posts != [] {
      var n := |posts| - 1;
      KeptIff(posts[..n], fetched[..n], i);
      if i < n {
        assert posts[..n][i] == posts[i] && fetched[..n][i] == fetched[i];
      }
    }
  }

  /** The kept indices are below the number of posts and strictly increasing. */
  lemma {:induction false} KeptIncreasing(posts: seq<Post>, fetched: seq<Option<Bytes>>)
    requires |fetched| == |posts|
    ensures forall k :: 0 <= k < |Kept(posts, fetched)| ==> Kept(posts, fetched)[k] < |posts|
    ensures forall k, l :: 0 <= k < l < |Kept(posts, fetched)| ==> Kept(posts, fetched)[k] < Kept(posts, fetched)[l]
    decreases |posts|
  {
    if posts != [] {
      var n := |posts| - 1;
      KeptIncreasing(posts[..n], fetched[..n]);
    }
  }

  /** At most one file per post. */
  lemma {:induction false} KeptLength(posts: seq<Post>, fetched: seq<Option<Bytes>>)
    requires |fetched| == |posts|
    ensures |Kept(posts, fetched)| <= |posts|
    decreases |posts|
  {
    if posts != [] {
      var n := |posts| - 1;
      KeptLength(posts[..n], fetched[..n]);
    }
  }

  /** Strictly increasing indices name pairwise different files. */
  lemma NamesDistinct(idx: seq<nat>)
    requires forall k, l :: 0 <= k < l < |idx| ==> idx[k] < idx[l]
    ensures forall k, l :: 0 <= k < l < |Names(idx)| ==> Names(idx)[k] != Names(idx)[l]
  {
    forall k, l | 0 <= k < l < |idx|
      ensures Names(idx)[k] != Names(idx)[l]
    {
      if Names(idx)[k] == Names(idx)[l] {
        FileNameInjective(idx[k], idx[l]);
      }
    }
  }

  /** A post's file is named exactly when its index is listed. */
  lemma NamesHas(idx: seq<nat>, i: nat)
    ensures FileName(i) in Names(idx) <==> i in idx
  {
    if FileName(i) in Names(idx) {
      var k :| 0 <= k < |idx| && Names(idx)[k] == FileName(i);
      FileNameInjective(idx[k], i);
    }
    if i in idx {
      var k :| 0 <= k < |idx| && idx[k] == i;
      assert Names(idx)[k] == FileName(i);
    }
  }

  /**
   * The list `download_images` returns: at most one name per post, no name
   * twice, each the name of a non-video post whose fetch returned data, and
   * every such post's name present.
   */
  lemma DownloadedNames(posts: seq<Post>, fetched: seq<Option<Bytes>>)
    requires |fetched| == |posts|
    ensures |Names(Kept(posts, fetched))| <= |posts|
    ensures forall k, l :: 0 <= k < l < |Names(Kept(posts, fetched))| ==>
      Names(Kept(posts, fetched))[k] != Names(Kept(posts, fetched))[l]
    ensures forall i :: 0 <= i < |posts| ==>
      (FileName(i) in Names(Kept(posts, fetched)) <==> !posts[i].isVideo && fetched[i].Some?)
  {
    var idx := Kept(posts, fetched);
    KeptLength(posts, fetched);
    KeptIncreasing(posts, fetched);
    NamesDistinct(idx);
    forall i | 0 <= i < |posts|
      ensures FileName(i) in Names(idx) <==> !posts[i].isVideo && fetched[i].Some?
    {
      KeptIff(posts, fetched, i);
      NamesHas(idx, i);
    }
  }

  /** Video posts never get a file. */
  lemma NoVideoFile(posts: seq<Post>, fetched: seq<Option<Bytes>>, i: nat)
    requires |fetched| == |posts| && i < |posts| && posts[i].isVideo
    ensures FileName(i) !in Names(Kept(posts, fetched))
    ensures FileName(i) !in Written(posts, fetched)
  {
    DownloadedNames(posts, fetched);
    WrittenContents(posts, fetched);
  }

  /**
   * The files written are exactly the names returned, each holding what its
   * post's fetch returned.
   */
  lemma {:induction false} WrittenContents(posts: seq<Post>, fetched: seq<Option<Bytes>>)
    requires |fetched| == |posts|
    ensures forall i :: 0 <= i < |posts| ==>
      (FileName(i) in Written(posts, fetched) <==> !posts[i].isVideo && fetched[i].Some?)
    ensures forall i :: 0 <= i < |posts| && FileName(i) in Written(posts, fetched) ==>
      Written(posts, fetched)[FileName(i)] == fetched[i].value
    ensures forall f :: f in Written(posts, fetched) ==> exists i :: 0 <= i < |posts| && f == FileName(i)
    decreases |posts|
  {
    if posts != [] {
      var n := |posts| - 1;
      WrittenContents(posts[..n], fetched[..n]);
      forall i | 0 <= i < |posts|
        ensures FileName(i) in Written(posts, fetched) <==> !posts[i].isVideo && fetched[i].Some?
        ensures FileName(i) in Written(posts, fetched) ==> Written(posts, fetched)[FileName(i)] == fetched[i].value
      {
        if i < n {
          assert posts[..n][i] == posts[i] && fetched[..n][i] == fetched[i];
          if FileName(i) == FileName(n) {
            FileNameInjective(i, n);
          }
        } else if FileName(n) in Written(posts[..n], fetched[..n]) {
          var j :| 0 <= j < n && FileName(n) == FileName(j);
          FileNameInjective(j, n);
        }
      }
    }
  }
}
