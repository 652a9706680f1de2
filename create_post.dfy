/** The post composer: its tag list, its file selection and the submit
    handler that uploads the files, writes the post row and links the tags. */
module CreatePost {
  import opened Wrappers
  import Text
  import opened Media

  const MaxTags: nat := 10
  const MaxFiles: nat := 5
  /** The `maxLength` of the tag input box. */
  const MaxTagInput: nat := 30

  // ---------------------------------------------------------------------
  // Tags
  // ---------------------------------------------------------------------

  /** The tag an input becomes: trimmed, then lower-cased. */
  function NormalizeTag(input: string): (t: string)
    ensures |t| <= |input|
    ensures Text.IsTrimmed(t) && Text.HasNoUpper(t)
    ensures t == [] <==> Text.AllWhitespace(input)
  {
    Text.TrimEmptyIffBlank(input);
    var trimmed := Text.Trim(input);
    var t := Text.ToLower(trimmed);
    Text.ToLowerSpec(trimmed);
    t
  }

  /** Normalizing a tag a second time changes nothing. */
  lemma NormalizeTagIdempotent(input: string)
    ensures NormalizeTag(NormalizeTag(input)) == NormalizeTag(input)
  {
    var t := NormalizeTag(input);
    Text.TrimOfTrimmed(t);
    Text.ToLowerOfLower(t);
  }

  predicate NoDuplicates(s: seq<string>) {
    forall i, j :: 0 <= i < j < |s| ==> s[i] != s[j]
  }

  /** Surrounding whitespace makes no difference to the tag an input becomes. */
  lemma NormalizeIgnoresPadding(p: string, input: string, q: string)
    requires Text.AllWhitespace(p) && Text.AllWhitespace(q)
    ensures NormalizeTag(p + input + q) == NormalizeTag(input)
  {
    Text.TrimIgnoresPadding(p, input, q);
  }

  /** The tag an input becomes does not depend on the case of its letters,
      so "Basketball" and "basketball" are the same tag to the duplicate check. */
  lemma NormalizeIgnoresCase(a: string, b: string)
    requires Text.SameUpToCase(a, b)
    ensures NormalizeTag(a) == NormalizeTag(b)
  {
    Text.TrimCommutesWithLower(a);
    Text.TrimCommutesWithLower(b);
    Text.SameUpToCaseLowersAlike(a, b);
  }

  /** A stored tag: non-empty, trimmed and lower-case. */
  predicate IsTag(t: string) {
    t != [] && Text.IsTrimmed(t) && Text.HasNoUpper(t)
  }

  /** The stored tags are exactly the non-empty inputs that normalizing
      leaves as they are. */
  lemma IsTagIffNormal(t: string)
    ensures IsTag(t) <==> t != [] && NormalizeTag(t) == t
  {
    if IsTag(t) {
      Text.TrimOfTrimmed(t);
      Text.ToLowerOfLower(t);
    }
  }

  /** What the composer promises of its tag list. */
  predicate TagListOk(tags: seq<string>) {
    |tags| <= MaxTags && NoDuplicates(tags) && forall t :: t in tags ==> IsTag(t)
  }

  lemma NoDuplicatesCons(h: string, rest: seq<string>)
    requires h !in rest && NoDuplicates(rest)
    ensures NoDuplicates([h] + rest)
  {
    var s := [h] + rest;
    forall i, j | 0 <= i < j < |s| ensures s[i] != s[j] {
      assert s[j] == rest[j - 1];
      if i > 0 { assert s[i] == rest[i - 1]; }
    }
  }

  lemma NoDuplicatesTail(s: seq<string>)
    requires s != [] && NoDuplicates(s)
    ensures NoDuplicates(s[1..]) && s[0] !in s[1..]
  {
  }

  /** The tag list together with the text of the tag input. */
  datatype TagDraft = TagDraft(tags: seq<string>, input: string)

  lemma NoDuplicatesSnoc(s: seq<string>, t: string)
    requires NoDuplicates(s) && t !in s
    ensures NoDuplicates(s + [t])
  {
    var s' := s + [t];
    forall i, j | 0 <= i < j < |s'| ensures s'[i] != s'[j] {
      assert s'[i] == s[i];
      if j < |s| { assert s'[j] == s[j]; }
    }
  }

  /** `handleAddTag`: the normalized input is appended and the input cleared
      when it is non-empty, not yet in the list and the list has room;
      otherwise nothing changes. */
  function AddTag(d: TagDraft): (r: TagDraft)
    ensures r == d || r == TagDraft(d.tags + [NormalizeTag(d.input)], "")
    ensures |r.tags| == |d.tags| + 1
            <==> NormalizeTag(d.input) != [] && NormalizeTag(d.input) !in d.tags && |d.tags| < MaxTags
  {
    var t := NormalizeTag(d.input);
    if t != [] && t !in d.tags && |d.tags| < MaxTags then TagDraft(d.tags + [t], "")
    else d
  }

  /** Adding a tag keeps a valid list valid: at most ten tags, no two alike,
      each non-empty and already normalized. */
  lemma AddTagKeepsTagListOk(d: TagDraft)
    requires TagListOk(d.tags)
    ensures TagListOk(AddTag(d).tags)
  {
    var t := NormalizeTag(d.input);
    var r := AddTag(d);
    if r != d {
      assert r.tags == d.tags + [t] && t !in d.tags && |d.tags| < MaxTags;
      AppendKeepsTagListOk(d.tags, t);
    }
  }

  /** Adding a tag also keeps every tag and the input within the input box's
      30 characters. */
  lemma AddTagKeepsBounds(d: TagDraft)
    requires TagListOk(d.tags) && |d.input| <= MaxTagInput
    requires forall t :: t in d.tags ==> |t| <= MaxTagInput
    ensures TagListOk(AddTag(d).tags) && |AddTag(d).input| <= MaxTagInput
    ensures forall t :: t in AddTag(d).tags ==> |t| <= MaxTagInput
  {
    AddTagKeepsTagListOk(d);
    var r := AddTag(d);
    if r != d {
      var t := NormalizeTag(d.input);
      assert r.tags == d.tags + [t];
      forall x | x in r.tags ensures |x| <= MaxTagInput {
        var i :| 0 <= i < |r.tags| && r.tags[i] == x;
        if i < |d.tags| { assert x == d.tags[i]; }
      }
    }
  }

  lemma AppendKeepsTagListOk(tags: seq<string>, t: string)
    requires TagListOk(tags) && IsTag(t) && t !in tags && |tags| < MaxTags
    ensures TagListOk(tags + [t])
  {
    NoDuplicatesSnoc(tags, t);
    var s := tags + [t];
    forall x | x in s ensures IsTag(x) {
      var i :| 0 <= i < |s| && s[i] == x;
      if i < |tags| { assert x == tags[i]; }
    }
  }

  /** `handleRemoveTag`: keeps exactly the entries different from `tag`. */
  function RemoveTag(tags: seq<string>, tag: string): (r: seq<string>)
    ensures |r| <= |tags|
    ensures forall x :: x in r <==> x in tags && x != tag
    ensures NoDuplicates(tags) ==> NoDuplicates(r)
  {
    if tags == [] then []
    else
      var rest := RemoveTag(tags[1..], tag);
      if tags[0] == tag then rest
      else
        assert NoDuplicates(tags) ==> NoDuplicates([tags[0]] + rest) by {
          if NoDuplicates(tags) {
            NoDuplicatesTail(tags);
            NoDuplicatesCons(tags[0], rest);
          }
        }
        [tags[0]] + rest
  }

  /** Removing a tag that is not in the list leaves the list as it is. */
  lemma {:induction false} RemoveAbsentTag(tags: seq<string>, tag: string)
    requires tag !in tags
    ensures RemoveTag(tags, tag) == tags
  {
    if tags != [] {
      RemoveAbsentTag(tags[1..], tag);
    }
  }

  /** In a list without duplicates, removing the tag at position `k` closes
      the gap and keeps every other tag in its original order. */
  lemma {:induction false} RemoveTagAt(tags: seq<string>, k: nat)
    requires NoDuplicates(tags) && k < |tags|
    ensures RemoveTag(tags, tags[k]) == tags[..k] + tags[k + 1..]
  {
    if k == 0 {
      RemoveAbsentTag(tags[1..], tags[0]);
    } else {
      assert tags[1..][k - 1] == tags[k];
      RemoveTagAt(tags[1..], k - 1);
      assert tags[..k] == [tags[0]] + tags[1..][..k - 1];
      assert tags[k + 1..] == tags[1..][k..];
    }
  }

  /** Removing filters piece by piece: it distributes over concatenation. */
  lemma {:induction false} RemoveTagAppend(a: seq<string>, b: seq<string>, tag: string)
    ensures RemoveTag(a + b, tag) == RemoveTag(a, tag) + RemoveTag(b, tag)
  {
    if a == [] {
      assert a + b == b;
    } else {
      assert (a + b)[0] == a[0];
      assert (a + b)[1..] == a[1..] + b;
      RemoveTagAppend(a[1..], b, tag);
    }
  }

  /** Adding a tag and then removing it gives back the original list. */
  lemma AddThenRemoveTag(d: TagDraft)
    requires |AddTag(d).tags| == |d.tags| + 1
    ensures RemoveTag(AddTag(d).tags, NormalizeTag(d.input)) == d.tags
  {
    var t := NormalizeTag(d.input);
    RemoveTagAppend(d.tags, [t], t);
    RemoveAbsentTag(d.tags, t);
  }

  /** Two inputs with the same normal form never both get in: once the first
      is added, the second leaves the draft unchanged. */
  lemma SameTagAddedOnce(tags: seq<string>, first: string, second: string)
    requires NormalizeTag(first) == NormalizeTag(second)
    requires |AddTag(TagDraft(tags, first)).tags| == |tags| + 1
    ensures var d := TagDraft(AddTag(TagDraft(tags, first)).tags, second);
            AddTag(d) == d
  {
  }

  // ---------------------------------------------------------------------
  // File selection
  // ---------------------------------------------------------------------

  datatype FileSelection = Accepted(files: seq<File>) | TooManyFiles | NothingSelected

  /** The file-count logic of `handleFileChange`: a non-empty selection that
      keeps the total at or under five is appended after the files already
      chosen; a non-empty selection that would pass five is refused with
      "Too many files"; an empty one is ignored. */
  function SelectFiles(files: seq<File>, selected: seq<File>): (r: FileSelection)
    ensures r.NothingSelected? <==> selected == []
    ensures r.TooManyFiles? <==> selected != [] && |files| + |selected| > MaxFiles
    ensures r.Accepted? ==> r.files == files + selected && |r.files| <= MaxFiles
  {
    if |selected| > 0 && |files| + |selected| <= MaxFiles then Accepted(files + selected)
    else if |selected| > 0 then TooManyFiles
    else NothingSelected
  }

  // ---------------------------------------------------------------------
  // Submit
  // ---------------------------------------------------------------------

  /** The `posts` row the composer inserts. */
  datatype PostInsert = PostInsert(
    userId: string, caption: string, mediaUrls: seq<string>, mediaUrl: string, mediaType: string)

  /** The backend calls the submit handler issues, in the order issued. */
  datatype StoreCall =
    | UploadMedia(path: string)
    | InsertPost(row: PostInsert)
    | CreateTag(name: string)
    | LinkTag(postId: string, tagId: string)

  /** What the backend answers, one entry per call: `nonces` stand for the
      `Math.random()` in each file's path, `uploads` give each file's public
      URL or the upload error, `insert` the new post's id, `tagIds` the
      answers of `create_tag_if_not_exists` and `links` those of the
      `post_tags` inserts. */
  datatype Replies = Replies(
    nonces: seq<string>,
    uploads: seq<Result<string>>,
    insert: Result<string>,
    tagIds: seq<Result<string>>,
    links: seq<Result<()>>)

  predicate RepliesFit(r: Replies, fileCount: nat, tagCount: nat) {
    |r.nonces| == fileCount && |r.uploads| == fileCount
    && |r.tagIds| == tagCount && |r.links| == tagCount
  }

  datatype SubmitOutcome = NoFilesSelected | Failed(message: string) | Posted(postId: string)

  /** `<userId>/<random>.<ext>`, where `<ext>` is what follows the last `.`
      of the file's name: every upload lands in the poster's own folder. */
  function UploadPath(userId: string, nonce: string, file: File): (path: string)
    ensures Text.StartsWith(path, userId + "/")
  {
    var path := userId + "/" + nonce + "." + Text.Extension(file.name);
    assert path[..|userId| + 1] == userId + "/";
    path
  }

  /** The stored object keeps the extension of the file it came from. */
  lemma UploadPathKeepsExtension(userId: string, nonce: string, file: File)
    ensures Text.Extension(UploadPath(userId, nonce, file)) == Text.Extension(file.name)
  {
    Text.ExtensionIsLastSegment(file.name);
    Text.ExtensionAfterDot(userId + "/" + nonce, Text.Extension(file.name));
  }

  /** Index of the first failed upload, or the number of uploads. */
  function FirstUploadError(uploads: seq<Result<string>>): (k: nat)
    ensures k <= |uploads|
    ensures forall i :: 0 <= i < k ==> uploads[i].Ok?
    ensures k < |uploads| ==> uploads[k].Err?
  {
    if uploads == [] || uploads[0].Err? then 0 else 1 + FirstUploadError(uploads[1..])
  }

  /** The first failed upload is the one every earlier upload succeeded before. */
  lemma {:induction false} FirstUploadErrorIs(uploads: seq<Result<string>>, k: nat)
    requires k <= |uploads| && forall i :: 0 <= i < k ==> uploads[i].Ok?
    requires k < |uploads| ==> uploads[k].Err?
    ensures FirstUploadError(uploads) == k
  {
    if k > 0 {
      FirstUploadErrorIs(uploads[1..], k - 1);
    }
  }

  /** Index of the first tag whose creation or link failed, or the number of tags. */
  function FirstTagError(tagIds: seq<Result<string>>, links: seq<Result<()>>): (k: nat)
    requires |tagIds| == |links|
    ensures k <= |tagIds|
    ensures forall i :: 0 <= i < k ==> tagIds[i].Ok? && links[i].Ok?
    ensures k < |tagIds| ==> tagIds[k].Err? || links[k].Err?
  {
    if tagIds == [] || tagIds[0].Err? || links[0].Err? then 0
    else 1 + FirstTagError(tagIds[1..], links[1..])
  }

  /** The public URLs of uploads that all succeeded, in file order. */
  function UploadedUrls(uploads: seq<Result<string>>): (urls: seq<string>)
    requires forall i :: 0 <= i < |uploads| ==> uploads[i].Ok?
    ensures |urls| == |uploads|
    ensures forall i :: 0 <= i < |uploads| ==> uploads[i] == Ok(urls[i])
  {
    if uploads == [] then [] else [uploads[0].value] + UploadedUrls(uploads[1..])
  }

  /** The upload calls for the first `n` files. */
  function UploadCalls(userId: string, files: seq<File>, nonces: seq<string>, n: nat): seq<StoreCall>
    requires n <= |files| == |nonces|
  {
    if n == 0 then []
    else UploadCalls(userId, files, nonces, n - 1) + [UploadMedia(UploadPath(userId, nonces[n - 1], files[n - 1]))]
  }

  /** The upload calls for the first `n` files are one per file, in file order. */
  lemma {:induction false} UploadCallsInOrder(userId: string, files: seq<File>, nonces: seq<string>, n: nat)
    requires n <= |files| == |nonces|
    ensures |UploadCalls(userId, files, nonces, n)| == n
    ensures forall i :: 0 <= i < n ==>
              UploadCalls(userId, files, nonces, n)[i] == UploadMedia(UploadPath(userId, nonces[i], files[i]))
  {
    if n > 0 {
      UploadCallsInOrder(userId, files, nonces, n - 1);
    }
  }

  /** The calls for one tag: find-or-create it, then link it if that worked. */
  function TagStepCalls(postId: string, tag: string, tagId: Result<string>): seq<StoreCall> {
    match tagId
    case Err(_) => [CreateTag(tag)]
    case Ok(id) => [CreateTag(tag), LinkTag(postId, id)]
  }

  /** The calls for the first `n` tags, one tag after the other. */
  function TagCalls(postId: string, tags: seq<string>, tagIds: seq<Result<string>>, n: nat): seq<StoreCall>
    requires n <= |tags| == |tagIds|
  {
    if n == 0 then []
    else TagCalls(postId, tags, tagIds, n - 1) + TagStepCalls(postId, tags[n - 1], tagIds[n - 1])
  }

  function TagErrorMessage(r: Replies, k: nat): string
    requires k < |r.tagIds| == |r.links|
    requires r.tagIds[k].Err? || r.links[k].Err?
  {
    if r.tagIds[k].Err? then r.tagIds[k].message else r.links[k].message
  }

  /** The upload loop of `handleSubmit`: the files in order, ending at the
      first failed upload. Its answer is every file's public URL in file
      order, or the first error; with it come the upload calls made. */
  function UploadPhase(userId: string, files: seq<File>, r: Replies)
    : (result: (Result<seq<string>>, seq<StoreCall>))
    requires |r.nonces| == |files| == |r.uploads|
    ensures result.0.Ok? <==> forall i :: 0 <= i < |files| ==> r.uploads[i].Ok?
    ensures result.0.Ok? ==> (|result.0.value| == |files|
            && forall i :: 0 <= i < |files| ==> r.uploads[i] == Ok(result.0.value[i]))
    ensures result.0.Ok? ==> |result.1| == |files|
    ensures result.0.Err? ==> (0 < |result.1| <= |files|
            && r.uploads[|result.1| - 1] == Err(result.0.message)
            && forall i :: 0 <= i < |result.1| - 1 ==> r.uploads[i].Ok?)
    ensures forall i :: 0 <= i < |result.1| ==>
              result.1[i] == UploadMedia(UploadPath(userId, r.nonces[i], files[i]))
  {
    var k := FirstUploadError(r.uploads);
    var n := if k < |files| then k + 1 else |files|;
    UploadCallsInOrder(userId, files, r.nonces, n);
    if k < |files| then (Err(r.uploads[k].message), UploadCalls(userId, files, r.nonces, n))
    else (Ok(UploadedUrls(r.uploads)), UploadCalls(userId, files, r.nonces, n))
  }

  /** The calls of a tag loop that ended at tag `j`: create and link for
      every earlier tag in list order, then the create of tag `j`, and its
      link only when the create answered with an id; nothing for any later tag. */
  predicate StopsAtTag(postId: string, tags: seq<string>, r: Replies, j: nat, calls: seq<StoreCall>)
    requires j < |tags| == |r.tagIds|
  {
    && |calls| == 2 * j + (if r.tagIds[j].Ok? then 2 else 1)
    && (forall i :: 0 <= i < j ==>
          r.tagIds[i].Ok? && calls[2 * i] == CreateTag(tags[i])
          && calls[2 * i + 1] == LinkTag(postId, r.tagIds[i].value))
    && calls[2 * j] == CreateTag(tags[j])
    && (r.tagIds[j].Ok? ==> calls[2 * j + 1] == LinkTag(postId, r.tagIds[j].value))
  }

  /** The calls up to and including the first failing tag are those of `StopsAtTag`. */
  lemma TagCallsUpToError(postId: string, tags: seq<string>, r: Replies, j: nat)
    requires |r.tagIds| == |tags| == |r.links|
    requires j == FirstTagError(r.tagIds, r.links) && j < |tags|
    ensures StopsAtTag(postId, tags, r, j, TagCalls(postId, tags, r.tagIds, j + 1))
  {
    TagCallsInOrder(postId, tags, r.tagIds, j);
  }

  /** The tag loop of `handleSubmit`: for each tag in list order,
      find-or-create it and link it to the post, ending at the first error. */
  function TagPhase(postId: string, tags: seq<string>, r: Replies)
    : (result: (Result<()>, seq<StoreCall>))
    requires |r.tagIds| == |tags| == |r.links|
    ensures result.0.Ok? <==> forall i :: 0 <= i < |tags| ==> r.tagIds[i].Ok? && r.links[i].Ok?
    ensures result.0.Ok? ==> (|result.1| == 2 * |tags|
            && forall i :: 0 <= i < |tags| ==>
                 result.1[2 * i] == CreateTag(tags[i])
                 && result.1[2 * i + 1] == LinkTag(postId, r.tagIds[i].value))
    ensures result.0.Err? ==>
              var j := FirstTagError(r.tagIds, r.links);
              j < |tags| && result.0.message == TagErrorMessage(r, j)
              && StopsAtTag(postId, tags, r, j, result.1)
  {
    var j := FirstTagError(r.tagIds, r.links);
    if j < |tags| then
      TagCallsUpToError(postId, tags, r, j);
      (Err(TagErrorMessage(r, j)), TagCalls(postId, tags, r.tagIds, j + 1))
    else
      TagCallsInOrder(postId, tags, r.tagIds, |tags|);
      (Ok(()), TagCalls(postId, tags, r.tagIds, |tags|))
  }

  /** `handleSubmit`, as the outcome it reports and the backend calls it
      issues: no file means no call at all; otherwise the uploads, then the
      post row, then the tags, each phase reached only if the previous one
      succeeded. */
  function Submit(userId: string, caption: string, files: seq<File>, tags: seq<string>, r: Replies)
    : (result: (SubmitOutcome, seq<StoreCall>))
    requires RepliesFit(r, |files|, |tags|)
    ensures result.0 == NoFilesSelected <==> files == []
    ensures files == [] ==> result.1 == []
    ensures result.0.Posted? <==>
              files != [] && (forall i :: 0 <= i < |files| ==> r.uploads[i].Ok?) && r.insert.Ok?
              && forall j :: 0 <= j < |tags| ==> r.tagIds[j].Ok? && r.links[j].Ok?
    ensures result.0.Posted? ==> r.insert == Ok(result.0.postId)
  {
    if files == [] then (NoFilesSelected, [])
    else
      var (uploaded, uploadCalls) := UploadPhase(userId, files, r);
      match uploaded
      case Err(m) => (Failed(m), uploadCalls)
      case Ok(urls) =>
        var written := uploadCalls + [InsertPost(PostInsert(userId, caption, urls, urls[0], "image"))];
        match r.insert
        case Err(m) => (Failed(m), written)
        case Ok(postId) =>
          var (linked, tagCalls) := TagPhase(postId, tags, r);
          match linked
          case Err(m) => (Failed(m), written + tagCalls)
          case Ok(_) => (Posted(postId), written + tagCalls)
  }

  /** While every tag so far was created, the calls for them alternate
      create and link, in list order. */
  lemma {:induction false} TagCallsInOrder(postId: string, tags: seq<string>, tagIds: seq<Result<string>>, n: nat)
    requires n <= |tags| == |tagIds|
    requires forall i :: 0 <= i < n ==> tagIds[i].Ok?
    ensures |TagCalls(postId, tags, tagIds, n)| == 2 * n
    ensures forall i :: 0 <= i < n ==>
              TagCalls(postId, tags, tagIds, n)[2 * i] == CreateTag(tags[i])
              && TagCalls(postId, tags, tagIds, n)[2 * i + 1] == LinkTag(postId, tagIds[i].value)
  {
    if n > 0 {
      TagCallsInOrder(postId, tags, tagIds, n - 1);
    }
  }

  /** Tag calls never exceed two per tag. */
  lemma {:induction false} TagCallsLength(postId: string, tags: seq<string>, tagIds: seq<Result<string>>, n: nat)
    requires n <= |tags| == |tagIds|
    ensures |TagCalls(postId, tags, tagIds, n)| <= 2 * n
  {
    if n > 0 {
      TagCallsLength(postId, tags, tagIds, n - 1);
    }
  }

  /** The uploads come first, one per file, in file order. */
  lemma UploadsComeFirstInOrder(userId: string, caption: string, files: seq<File>, tags: seq<string>, r: Replies, i: nat)
    requires RepliesFit(r, |files|, |tags|)
    requires i < |files| && i < |Submit(userId, caption, files, tags, r).1|
    ensures Submit(userId, caption, files, tags, r).1[i] == UploadMedia(UploadPath(userId, r.nonces[i], files[i]))
  {
    var (uploaded, uploadCalls) := UploadPhase(userId, files, r);
    assert i < |uploadCalls|;
  }

  /** A failed upload ends the submit before the post row is written: the
      submit fails with the message of the first failed upload, and the calls
      are the uploads of the files up to that one, in file order. */
  lemma UploadFailureStopsBeforeInsert(userId: string, caption: string, files: seq<File>, tags: seq<string>, r: Replies, k: nat)
    requires RepliesFit(r, |files|, |tags|)
    requires k < |files| && r.uploads[k].Err?
    ensures var (outcome, calls) := Submit(userId, caption, files, tags, r);
            var f := FirstUploadError(r.uploads);
            f <= k && outcome == Failed(r.uploads[f].message)
            && calls == UploadCalls(userId, files, r.nonces, f + 1)
            && |calls| <= k + 1 && forall c :: c in calls ==> c.UploadMedia?
  {
    var (uploaded, uploadCalls) := UploadPhase(userId, files, r);
    assert uploaded.Err?;
    var f := FirstUploadError(r.uploads);
    UploadCallsInOrder(userId, files, r.nonces, f + 1);
    forall c | c in uploadCalls ensures c.UploadMedia? {
      var i :| 0 <= i < |uploadCalls| && uploadCalls[i] == c;
    }
  }

  /** A post that was written belongs to the poster, carries the caption and
      the media type "image", holds every uploaded URL in file order and its
      `media_url` is the first of them; each tag was created and linked in
      list order after it. */
  lemma PostedRowAndTagOrder(userId: string, caption: string, files: seq<File>, tags: seq<string>, r: Replies)
    requires RepliesFit(r, |files|, |tags|)
    requires Submit(userId, caption, files, tags, r).0.Posted?
    ensures var (outcome, calls) := Submit(userId, caption, files, tags, r);
            |calls| == |files| + 1 + 2 * |tags|
            && calls[|files|].InsertPost?
            && var row := calls[|files|].row;
            |row.mediaUrls| == |files|
            && row == PostInsert(userId, caption, row.mediaUrls, row.mediaUrls[0], "image")
            && (forall i :: 0 <= i < |files| ==> r.uploads[i] == Ok(row.mediaUrls[i]))
            && forall i :: 0 <= i < |tags| ==>
                 r.tagIds[i].Ok?
                 && calls[|files| + 1 + 2 * i] == CreateTag(tags[i])
                 && calls[|files| + 2 + 2 * i] == LinkTag(outcome.postId, r.tagIds[i].value)
  {
    var (uploaded, uploadCalls) := UploadPhase(userId, files, r);
    var (linked, tagCalls) := TagPhase(r.insert.value, tags, r);
    assert uploaded.Ok? && linked.Ok?;
  }

  /** A failed insert of the post row fails the submit with its message,
      after every upload and that one insert of the poster's row, and no tag
      is touched. */
  lemma InsertFailureStopsTags(userId: string, caption: string, files: seq<File>, tags: seq<string>, r: Replies)
    requires RepliesFit(r, |files|, |tags|)
    requires files != [] && r.insert.Err? && forall i :: 0 <= i < |files| ==> r.uploads[i].Ok?
    ensures var (outcome, calls) := Submit(userId, caption, files, tags, r);
            outcome == Failed(r.insert.message) && |calls| == |files| + 1
            && (forall i :: 0 <= i < |files| ==> calls[i] == UploadMedia(UploadPath(userId, r.nonces[i], files[i])))
            && var urls := UploadedUrls(r.uploads);
            calls[|files|] == InsertPost(PostInsert(userId, caption, urls, urls[0], "image"))
  {
    var (uploaded, uploadCalls) := UploadPhase(userId, files, r);
    assert uploaded.Ok?;
  }

  /** A tag error stops the remaining tags: the submit fails with the message
      of the first tag that failed, and after the insert of the poster's row
      come only the calls for the tags up to that one, in list order. */
  lemma TagErrorStopsRemainingLinks(userId: string, caption: string, files: seq<File>, tags: seq<string>, r: Replies, j: nat)
    requires RepliesFit(r, |files|, |tags|)
    requires files != [] && r.insert.Ok? && forall i :: 0 <= i < |files| ==> r.uploads[i].Ok?
    requires j < |tags| && (r.tagIds[j].Err? || r.links[j].Err?)
    ensures var (outcome, calls) := Submit(userId, caption, files, tags, r);
            var f := FirstTagError(r.tagIds, r.links);
            var urls := UploadedUrls(r.uploads);
            f <= j && outcome == Failed(TagErrorMessage(r, f))
            && |files| < |calls| <= |files| + 1 + 2 * (j + 1)
            && calls[|files|] == InsertPost(PostInsert(userId, caption, urls, urls[0], "image"))
            && StopsAtTag(r.insert.value, tags, r, f, calls[|files| + 1..])
  {
    var first := FirstTagError(r.tagIds, r.links);
    assert first <= j;
    var (uploaded, uploadCalls) := UploadPhase(userId, files, r);
    var (linked, tagCalls) := TagPhase(r.insert.value, tags, r);
    assert uploaded.Ok? && linked.Err?;
    var calls := Submit(userId, caption, files, tags, r).1;
    assert calls[|files| + 1..] == tagCalls;
  }

  // ---------------------------------------------------------------------
  // The composer's state
  // ---------------------------------------------------------------------

  class Composer {
    const userId: string
    var caption: string
    var files: seq<File>
    var tags: seq<string>
    var tagInput: string

    ghost predicate Valid()
      reads this
    {
      |files| <= MaxFiles && |tagInput| <= MaxTagInput && TagListOk(tags)
      && forall t :: t in tags ==> |t| <= MaxTagInput
    }

    constructor (userId: string)
      ensures Valid() && this.userId == userId
      ensures caption == "" && files == [] && tags == [] && tagInput == ""
    {
      this.userId := userId;
      caption, files, tags, tagInput := "", [], [], "";
    }

    /** The caption box's `onChange`. */
    method EditCaption(text: string)
      requires Valid()
      modifies this`caption
      ensures Valid() && caption == text
    {
      caption := text;
    }

    /** The tag box's `onChange`; the box holds at most 30 characters. */
    method EditTagInput(text: string)
      requires Valid() && |text| <= MaxTagInput
      modifies this`tagInput
      ensures Valid() && tagInput == text
    {
      tagInput := text;
    }

    /** `handleAddTag`, also run by Enter or `,` in the tag box. */
    method HandleAddTag()
      requires Valid()
      modifies this`tags, this`tagInput
      ensures Valid()
      ensures TagDraft(tags, tagInput) == AddTag(TagDraft(old(tags), old(tagInput)))
    {
      var draft := TagDraft(tags, tagInput);
      AddTagKeepsBounds(draft);
      var next := AddTag(draft);
      tags, tagInput := next.tags, next.input;
    }

    /** `handleRemoveTag`. */
    method HandleRemoveTag(tag: string)
      requires Valid()
      modifies this`tags
      ensures Valid() && tags == RemoveTag(old(tags), tag)
    {
      tags := RemoveTag(tags, tag);
    }

    /** The file-count part of `handleFileChange`; `tooMany` is the
      "Too many files" toast. */
    method HandleFileChange(selected: seq<File>) returns (tooMany: bool)
      requires Valid()
      modifies this`files
      ensures Valid()
      ensures tooMany <==> SelectFiles(old(files), selected).TooManyFiles?
      ensures files == match SelectFiles(old(files), selected)
                       case Accepted(fs) => fs
                       case _ => old(files)
    {
      var selection := SelectFiles(files, selected);
      tooMany := selection.TooManyFiles?;
      if selection.Accepted? {
        files := selection.files;
      }
    }

    /** The upload loop of `handleSubmit`. */
    method UploadFiles(r: Replies) returns (uploaded: Result<seq<string>>, calls: seq<StoreCall>)
      requires |r.nonces| == |files| == |r.uploads|
      ensures (uploaded, calls) == UploadPhase(userId, files, r)
    {
      var uploadedUrls: seq<string> := [];
      calls := [];
      var i := 0;
      while i < |files|
        invariant 0 <= i <= |files|
        invariant |uploadedUrls| == i
        invariant forall j :: 0 <= j < i ==> r.uploads[j] == Ok(uploadedUrls[j])
        invariant calls == UploadCalls(userId, files, r.nonces, i)
      {
        var path := UploadPath(userId, r.nonces[i], files[i]);
        calls := calls + [UploadMedia(path)];
        if r.uploads[i].Err? {
          FirstUploadErrorIs(r.uploads, i);
          return Err(r.uploads[i].message), calls;
        }
        uploadedUrls := uploadedUrls + [r.uploads[i].value];
        i := i + 1;
      }
      FirstUploadErrorIs(r.uploads, |files|);
      assert uploadedUrls == UploadedUrls(r.uploads);
      uploaded := Ok(uploadedUrls);
    }

    /** The tag loop of `handleSubmit`. */
    method LinkTags(postId: string, r: Replies) returns (linked: Result<()>, calls: seq<StoreCall>)
      requires |r.tagIds| == |tags| == |r.links|
      ensures (linked, calls) == TagPhase(postId, tags, r)
    {
      calls := [];
      var t := 0;
      while t < |tags|
        invariant 0 <= t <= |tags|
        invariant t <= FirstTagError(r.tagIds, r.links)
        invariant calls == TagCalls(postId, tags, r.tagIds, t)
      {
        calls := calls + [CreateTag(tags[t])];
        if r.tagIds[t].Err? {
          assert FirstTagError(r.tagIds, r.links) == t;
          assert calls == TagCalls(postId, tags, r.tagIds, t + 1);
          return Err(r.tagIds[t].message), calls;
        }
        calls := calls + [LinkTag(postId, r.tagIds[t].value)];
        assert calls == TagCalls(postId, tags, r.tagIds, t + 1);
        if r.links[t].Err? {
          assert FirstTagError(r.tagIds, r.links) == t;
          return Err(r.links[t].message), calls;
        }
        t := t + 1;
      }
      linked := Ok(());
    }

    /** `handleSubmit`: refuse an empty selection, upload, insert the post
        row, then create and link the tags. */
    method HandleSubmit(r: Replies) returns (outcome: SubmitOutcome, calls: seq<StoreCall>)
      requires RepliesFit(r, |files|, |tags|)
      ensures (outcome, calls) == Submit(userId, caption, files, tags, r)
    {
      if |files| == 0 {
        return NoFilesSelected, [];
      }
      var uploaded;
      uploaded, calls := UploadFiles(r);
      if uploaded.Err? {
        return Failed(uploaded.message), calls;
      }
      var urls := uploaded.value;
      calls := calls + [InsertPost(PostInsert(userId, caption, urls, urls[0], "image"))];
      if r.insert.Err? {
        return Failed(r.insert.message), calls;
      }
      var postId := r.insert.value;
      var linked, tagCalls := LinkTags(postId, r);
      calls := calls + tagCalls;
      if linked.Err? {
        return Failed(linked.message), calls;
      }
      outcome := Posted(postId);
    }
  }
}
