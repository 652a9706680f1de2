/** Values shared by the post composer, the post card and the profile grid. */
module Media {
  import opened Wrappers

  /** A browser `File`: its name, its MIME type and its size in bytes. */
  datatype File = File(name: string, mimeType: string, size: nat)

  /** A row of the `posts` table as the card and the profile grid read it.
      `mediaUrls` is `None` when the column is null. */
  datatype PostRow = PostRow(
    id: string,
    userId: string,
    caption: Option<string>,
    mediaUrl: string,
    mediaUrls: Option<seq<string>>,
    likesCount: Option<int>)

  /** The images a post shows: its `media_urls` when that list is present and
      non-empty, otherwise the single legacy `media_url`. Never empty. */
  function MediaUrls(post: PostRow): (urls: seq<string>)
    ensures |urls| >= 1
    ensures post.mediaUrls.Some? && post.mediaUrls.value != [] ==> urls == post.mediaUrls.value
    ensures post.mediaUrls.None? || post.mediaUrls.value == [] ==> urls == [post.mediaUrl]
  {
    if post.mediaUrls.Some? && |post.mediaUrls.value| > 0 then post.mediaUrls.value
    else [post.mediaUrl]
  }
}
