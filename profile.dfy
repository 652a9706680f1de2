/** The profile page: who is looking, the follow button, the avatar upload,
    the edit dialog, the post grid and the delete-post dialog. */
module Profile {
  import opened Wrappers
  import Text
  import opened Media

  /** The `sport_category` enum of the database. */
  datatype Sport = Basketball | Soccer | Tennis | Running | Swimming | Cycling
                 | Volleyball | Baseball | Football | Hockey | Other

  /** The columns of a `profiles` row the page edits; the nullable ones are
      options. Counters and timestamps are left to the database. */
  datatype ProfileRow = ProfileRow(
    id: string,
    username: string,
    fullName: string,
    bio: Option<string>,
    location: Option<string>,
    sport: Option<Sport>,
    profileImageUrl: Option<string>)

  // ---------------------------------------------------------------------
  // Whose profile
  // ---------------------------------------------------------------------

  /** `userId === currentUserId`, where the route parameter may be absent. */
  function IsOwnProfile(routeUserId: Option<string>, currentUserId: string): (own: bool)
    ensures own <==> routeUserId == Some(currentUserId)
  {
    routeUserId.Some? && routeUserId.value == currentUserId
  }

  datatype Fetch = FetchProfile | FetchPosts | CheckFollowing

  /** What the page loads when the route's user changes: the profile and the
      posts always, and whether the viewer follows them only on someone
      else's profile. */
  function MountFetches(routeUserId: Option<string>, currentUserId: string): (fs: seq<Fetch>)
    ensures |fs| >= 2 && fs[0] == FetchProfile && fs[1] == FetchPosts
    ensures CheckFollowing in fs <==> !IsOwnProfile(routeUserId, currentUserId)
    ensures forall i, j :: 0 <= i < j < |fs| ==> fs[i] != fs[j]
  {
    if IsOwnProfile(routeUserId, currentUserId) then [FetchProfile, FetchPosts]
    else [FetchProfile, FetchPosts, CheckFollowing]
  }

  // ---------------------------------------------------------------------
  // Follow
  // ---------------------------------------------------------------------

  /** The `follows` row a click on the follow button deletes or inserts. */
  datatype FollowRequest =
    | Unfollow(followerId: string, followingId: string)
    | FollowUser(followerId: string, followingId: string)

  /** A follower deletes the row; anyone else inserts it. Either way the
      viewer is the follower and the profile's user the one followed. */
  function FollowRequestFor(isFollowing: bool, currentUserId: string, routeUserId: string): (req: FollowRequest)
    ensures req.Unfollow? <==> isFollowing
    ensures req.followerId == currentUserId && req.followingId == routeUserId
  {
    if isFollowing then Unfollow(currentUserId, routeUserId) else FollowUser(currentUserId, routeUserId)
  }

  /** `isFollowing` after the request returns: flipped on success, kept on error. */
  function AfterFollow(isFollowing: bool, ok: bool): (r: bool)
    ensures ok ==> r == !isFollowing
    ensures !ok ==> r == isFollowing
  {
    if ok then !isFollowing else isFollowing
  }

  /** Following and then unfollowing, both successful, restores the button;
      the request after a success is the opposite of the one before. */
  lemma FollowTwiceRestores(isFollowing: bool, me: string, them: string)
    ensures AfterFollow(AfterFollow(isFollowing, true), true) == isFollowing
    ensures FollowRequestFor(AfterFollow(isFollowing, true), me, them).Unfollow?
            == FollowRequestFor(isFollowing, me, them).FollowUser?
  {
  }

  // ---------------------------------------------------------------------
  // Avatar upload
  // ---------------------------------------------------------------------

  /** `5 * 1024 * 1024`, the largest avatar accepted, in bytes. */
  const MaxAvatarBytes: nat := 5 * 1024 * 1024

  datatype AvatarCheck = NoFile | InvalidType | TooLarge | Accepted

  /** The checks of `handleFileUpload` before anything is sent, in their
      order: a file must be selected, its MIME type must start with
      `image/`, and it must not exceed 5 MiB. */
  function CheckAvatar(file: Option<File>): (c: AvatarCheck)
    ensures c == NoFile <==> file.None?
    ensures c == InvalidType <==> file.Some? && !Text.StartsWith(file.value.mimeType, "image/")
    ensures c == TooLarge <==> (file.Some? && Text.StartsWith(file.value.mimeType, "image/")
                                && file.value.size > MaxAvatarBytes)
    ensures c == Accepted <==> (file.Some? && Text.StartsWith(file.value.mimeType, "image/")
                                && file.value.size <= MaxAvatarBytes)
  {
    if file.None? then NoFile
    else if !Text.StartsWith(file.value.mimeType, "image/") then InvalidType
    else if file.value.size > MaxAvatarBytes then TooLarge
    else Accepted
  }

  /** The size cap is inclusive: an image of exactly 5 MiB passes and one
      byte more does not. */
  lemma AvatarSizeBoundary(name: string, mimeType: string)
    requires Text.StartsWith(mimeType, "image/")
    ensures CheckAvatar(Some(File(name, mimeType, 5242880))) == Accepted
    ensures CheckAvatar(Some(File(name, mimeType, 5242881))) == TooLarge
  {
  }

  /** `profile-images/<userId>_<stamp>.<ext>`, where `<ext>` is what follows
      the file name's last `.` and `<stamp>` is the upload time. */
  function AvatarPath(userId: string, stamp: string, name: string): (path: string)
    ensures Text.StartsWith(path, "profile-images/" + userId + "_")
  {
    var folder := "profile-images/" + userId + "_";
    var path := folder + stamp + "." + Text.Extension(name);
    assert path[..|folder|] == folder;
    path
  }

  /** The stored avatar keeps the extension of the chosen file. */
  lemma AvatarPathKeepsExtension(userId: string, stamp: string, name: string)
    ensures Text.Extension(AvatarPath(userId, stamp, name)) == Text.Extension(name)
  {
    Text.ExtensionIsLastSegment(name);
    Text.ExtensionAfterDot("profile-images/" + userId + "_" + stamp, Text.Extension(name));
  }

  datatype AvatarCall = UploadAvatarFile(path: string) | SetProfileImage(userId: string, url: string)

  datatype AvatarOutcome = Rejected(reason: AvatarCheck) | AvatarFailed(message: string) | AvatarUpdated

  datatype AvatarRun = AvatarRun(outcome: AvatarOutcome, calls: seq<AvatarCall>)

  /** `handleFileUpload` as a whole: a rejected file sends nothing; an
      accepted one is uploaded under `AvatarPath`, and only when the upload
      succeeds is the profile's image set to its public URL. `upload` and
      `update` are the store's answers, `publicUrl` the URL it hands out. */
  function UploadAvatar(userId: string, stamp: string, file: Option<File>,
                        upload: Result<()>, publicUrl: string, update: Result<()>): (r: AvatarRun)
    ensures r.outcome.Rejected? <==> CheckAvatar(file) != Accepted
    ensures r.outcome.Rejected? ==> r.calls == [] && r.outcome.reason == CheckAvatar(file)
    ensures !r.outcome.Rejected? ==> (file.Some? && 1 <= |r.calls| <= 2
                                      && r.calls[0] == UploadAvatarFile(AvatarPath(userId, stamp, file.value.name)))
    ensures |r.calls| == 2 <==> !r.outcome.Rejected? && upload.Ok?
    ensures |r.calls| == 2 ==> r.calls[1] == SetProfileImage(userId, publicUrl)
    ensures r.outcome == AvatarUpdated <==> CheckAvatar(file) == Accepted && upload.Ok? && update.Ok?
  {
    var check := CheckAvatar(file);
    if check != Accepted then AvatarRun(Rejected(check), [])
    else
      var first := UploadAvatarFile(AvatarPath(userId, stamp, file.value.name));
      if upload.Err? then AvatarRun(AvatarFailed(upload.message), [first])
      else
        var calls := [first, SetProfileImage(userId, publicUrl)];
        if update.Err? then AvatarRun(AvatarFailed(update.message), calls)
        else AvatarRun(AvatarUpdated, calls)
  }

  // ---------------------------------------------------------------------
  // Edit dialog
  // ---------------------------------------------------------------------

  /** The edit dialog's fields, which `handleSaveProfile` writes back as they are. */
  datatype EditForm = EditForm(fullName: string, bio: string, location: string, sport: Sport, profileImageUrl: string)

  const BlankForm := EditForm("", "", "", Other, "")

  function OrEmpty(o: Option<string>): (s: string)
    ensures o.Some? ==> s == o.value
    ensures o.None? ==> s == ""
  {
    if o.Some? then o.value else ""
  }

  /** `openEditDialog`'s form: the profile's values, with a missing text
      field shown as `""` and a missing sport as `other`; all blank when the
      profile has not loaded. */
  function EditDefaults(profile: Option<ProfileRow>): (f: EditForm)
    ensures profile.None? ==> f == BlankForm
    ensures profile.Some? ==> (f.fullName == profile.value.fullName
                               && f.bio == OrEmpty(profile.value.bio)
                               && f.location == OrEmpty(profile.value.location)
                               && f.profileImageUrl == OrEmpty(profile.value.profileImageUrl))
    ensures profile.Some? && profile.value.sport.Some? ==> f.sport == profile.value.sport.value
    ensures profile.Some? && profile.value.sport.None? ==> f.sport == Other
  {
    match profile
    case None => BlankForm
    case Some(p) =>
      EditForm(p.fullName, OrEmpty(p.bio), OrEmpty(p.location),
               if p.sport.Some? then p.sport.value else Other, OrEmpty(p.profileImageUrl))
  }

  /** The row after the update `handleSaveProfile` sends for `form`: the
      identity is kept, and reopening the dialog shows the saved form. */
  function ApplyEdit(p: ProfileRow, form: EditForm): (q: ProfileRow)
    ensures q.id == p.id && q.username == p.username
    ensures EditDefaults(Some(q)) == form
  {
    p.(fullName := form.fullName, bio := Some(form.bio), location := Some(form.location),
       sport := Some(form.sport), profileImageUrl := Some(form.profileImageUrl))
  }

  /** Opening the dialog and saving it untouched keeps every value the
      profile had, turns its missing fields into the defaults shown, and
      reopening the dialog shows the same form again. */
  lemma SaveUnchangedForm(p: ProfileRow)
    ensures var q := ApplyEdit(p, EditDefaults(Some(p)));
            && q.id == p.id && q.username == p.username && q.fullName == p.fullName
            && (p.bio.Some? ==> q.bio == p.bio) && (p.location.Some? ==> q.location == p.location)
            && (p.sport.Some? ==> q.sport == p.sport) && (p.sport.None? ==> q.sport == Some(Other))
            && (p.profileImageUrl.Some? ==> q.profileImageUrl == p.profileImageUrl)
            && EditDefaults(Some(q)) == EditDefaults(Some(p))
  {
  }

  // ---------------------------------------------------------------------
  // Post grid and deletion
  // ---------------------------------------------------------------------

  /** The grid's multi-image marker: shown exactly when the post's
      `media_urls` holds more than one image. */
  function HasMultipleImages(post: PostRow): (multi: bool)
    ensures multi <==> post.mediaUrls.Some? && |post.mediaUrls.value| > 1
  {
    |MediaUrls(post)| > 1
  }

  /** The delete a confirmation sends, restricted to the viewer's own posts. */
  datatype DeleteRequest = DeletePost(postId: string, ownerId: string)

  /** The guard of `handleDeletePost`: nothing is sent without a selected post
      or while a delete is in flight. */
  function DeleteRequestFor(selected: Option<PostRow>, busy: bool, currentUserId: string): (req: Option<DeleteRequest>)
    ensures req.Some? <==> selected.Some? && !busy
    ensures req.Some? ==> req.value == DeletePost(selected.value.id, currentUserId)
  {
    if selected.None? || busy then None else Some(DeletePost(selected.value.id, currentUserId))
  }

  // ---------------------------------------------------------------------
  // The page's state
  // ---------------------------------------------------------------------

  class ProfileView {
    const currentUserId: string
    const routeUserId: Option<string>
    var profile: Option<ProfileRow>
    var loading: bool
    var isFollowing: bool
    var editDialogOpen: bool
    var editingProfile: EditForm
    var selectedPost: Option<PostRow>
    var showPostModal: bool
    var showDeleteDialog: bool
    var deletingPost: bool

    constructor (currentUserId: string, routeUserId: Option<string>)
      ensures this.currentUserId == currentUserId && this.routeUserId == routeUserId
      ensures profile.None? && loading && !isFollowing
      ensures !editDialogOpen && editingProfile == BlankForm
      ensures selectedPost.None? && !showPostModal && !showDeleteDialog && !deletingPost
    {
      this.currentUserId, this.routeUserId := currentUserId, routeUserId;
      profile, loading, isFollowing := None, true, false;
      editDialogOpen, editingProfile := false, BlankForm;
      selectedPost, showPostModal, showDeleteDialog, deletingPost := None, false, false, false;
    }

    /** The answer of `fetchProfile`: the row is kept on success; on error
        the page goes home. The spinner stops either way. */
    method ProfileFetched(result: Result<ProfileRow>) returns (toHome: bool)
      modifies this`profile, this`loading
      ensures !loading && toHome == result.Err?
      ensures profile == if result.Ok? then Some(result.value) else old(profile)
    {
      if result.Ok? {
        profile := Some(result.value);
      }
      toHome := result.Err?;
      loading := false;
    }

    /** The answer of `checkFollowing`: whether a `follows` row was found. */
    method FollowingChecked(found: bool)
      modifies this`isFollowing
      ensures isFollowing == found
    {
      isFollowing := found;
    }

    /** `handleFollow`: sends the request for the current state, and flips
        `isFollowing` and re-fetches the profile only when it succeeds. */
    method HandleFollow(ok: bool) returns (request: FollowRequest, refetch: bool)
      requires routeUserId.Some?
      modifies this`isFollowing
      ensures request == FollowRequestFor(old(isFollowing), currentUserId, routeUserId.value)
      ensures isFollowing == AfterFollow(old(isFollowing), ok) && refetch == ok
    {
      request := FollowRequestFor(isFollowing, currentUserId, routeUserId.value);
      if ok {
        isFollowing := !isFollowing;
      }
      refetch := ok;
    }

    /** `openEditDialog`. */
    method OpenEditDialog()
      modifies this`editingProfile, this`editDialogOpen
      ensures editingProfile == EditDefaults(profile) && editDialogOpen
    {
      editingProfile := EditDefaults(profile);
      editDialogOpen := true;
    }

    /** One of the dialog's inputs changed. */
    method EditProfileForm(form: EditForm)
      modifies this`editingProfile
      ensures editingProfile == form
    {
      editingProfile := form;
    }

    /** `handleSaveProfile`: sends the form as it is; on success the dialog
        closes and the profile is re-fetched, on error it stays open. */
    method SaveProfile(ok: bool) returns (update: EditForm, refetch: bool)
      modifies this`editDialogOpen
      ensures update == editingProfile && refetch == ok
      ensures editDialogOpen == if ok then false else old(editDialogOpen)
    {
      update := editingProfile;
      if ok {
        editDialogOpen := false;
      }
      refetch := ok;
    }

    /** A click on a grid tile opens that post. */
    method SelectPost(post: PostRow)
      modifies this`selectedPost, this`showPostModal
      ensures selectedPost == Some(post) && showPostModal
    {
      selectedPost := Some(post);
      showPostModal := true;
    }

    /** The post dialog's menu item that asks for confirmation. */
    method OpenDeleteDialog()
      modifies this`showDeleteDialog
      ensures showDeleteDialog
    {
      showDeleteDialog := true;
    }

    /** The confirmation's Cancel button, disabled while a delete is in flight. */
    method CancelDelete()
      requires !deletingPost
      modifies this`showDeleteDialog
      ensures !showDeleteDialog
    {
      showDeleteDialog := false;
    }

    /** `handleDeletePost` up to its store call: ignored without a selected
        post or while a delete is in flight, otherwise marks one in flight. */
    method BeginDeletePost() returns (request: Option<DeleteRequest>)
      modifies this`deletingPost
      ensures request == DeleteRequestFor(selectedPost, old(deletingPost), currentUserId)
      ensures deletingPost == (old(deletingPost) || request.Some?)
    {
      request := DeleteRequestFor(selectedPost, deletingPost, currentUserId);
      if request.Some? {
        deletingPost := true;
      }
    }

    /** `handleDeletePost` after its store call: on success both dialogs close,
        the selection is cleared and posts and profile are re-fetched; on
        error they stay as they were. The in-flight flag is cleared either way. */
    method FinishDeletePost(ok: bool) returns (refetch: bool)
      requires deletingPost
      modifies this`showDeleteDialog, this`showPostModal, this`selectedPost, this`deletingPost
      ensures !deletingPost && refetch == ok
      ensures ok ==> !showDeleteDialog && !showPostModal && selectedPost.None?
      ensures !ok ==> (showDeleteDialog == old(showDeleteDialog) && showPostModal == old(showPostModal)
                       && selectedPost == old(selectedPost))
    {
      if ok {
        showDeleteDialog := false;
        showPostModal := false;
        selectedPost := None;
      }
      refetch := ok;
      deletingPost := false;
    }
  }
}
