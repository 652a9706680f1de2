# Athlete Allure client core in Dafny

A model of the client-side logic of Athlete Allure, a social app for athletes:

- the post composer (`CreatePost.tsx`): tag normalisation, file selection, and a submit that uploads the images, writes one post row and then links the tags;
- the post card (`PostCard.tsx`): the like toggle with its in-flight guard, the image carousel and the comment box;
- the notifications page (`Notifications.tsx`): marking one or all notifications as read, the unread badge, what a click does, and the automatic mark-all on entry;
- the profile page (`Profile.tsx`): whose profile it is, follow and unfollow, avatar validation and storage path, the edit dialog, the grid's multi-image marker and the delete-post guard.

Every backend call (database query, storage upload, remote procedure) is an input: the handler gets the store's answer as a `Result` or a success flag and returns the calls it issues as values. Handlers that check an in-flight flag (`loading`, `commentLoading`, `deletingPost`) are split in two methods. `Begin…` runs up to the store call. `Finish…` runs from its answer.

Files:

- `wrappers.dfy`: `Option` and `Result`.
- `text.dfy`: JavaScript's `trim`, `toLowerCase`, `startsWith` and `split(".").pop()`.
- `media.dfy`: the file and post-row values shared by the pages, and the `media_urls` fallback.
- `create_post.dfy`, `post_card.dfy`, `notifications.dfy`, `profile.dfy`: one module per page or component.

Two properties of the code shape the model:

- A like or a follow changes the local state only after the store call succeeds. Nothing is flipped ahead of the call, so nothing has to be rolled back.
- The like button has an in-flight guard (`PostCard.tsx:77`). The follow button has none, and `HandleFollow` is modelled as one step.

## Model

| member | source | states |
|---|---|---|
| Text.TrimStart | athlete-allure-main/src/pages/CreatePost.tsx:51 | the start of `trim` keeps a suffix of the input that does not begin with whitespace |
| Text.TrimStartDropsWhitespace | athlete-allure-main/src/pages/CreatePost.tsx:51 | what the start of `trim` drops is all whitespace |
| Text.TrimEnd | athlete-allure-main/src/pages/CreatePost.tsx:51 | the end of `trim` keeps a prefix of the input that does not end with whitespace |
| Text.TrimEndDropsWhitespace | athlete-allure-main/src/pages/CreatePost.tsx:51 | what the end of `trim` drops is all whitespace |
| Text.Trim | athlete-allure-main/src/pages/CreatePost.tsx:51 | `trim` is no longer than its input and leaves no whitespace at either end |
| Text.TrimIsSlice | athlete-allure-main/src/pages/CreatePost.tsx:51 | `trim` returns a contiguous slice of its input with only whitespace cut away on both sides |
| Text.TrimEmptyIffBlank | athlete-allure-main/src/components/PostCard.tsx:134 | a string trims to nothing exactly when it is all whitespace |
| Text.TrimOfTrimmed | athlete-allure-main/src/pages/CreatePost.tsx:51 | trimming a string that has no whitespace at its ends changes nothing |
| Text.TrimStartAfterWhitespace | athlete-allure-main/src/pages/CreatePost.tsx:51 | leading whitespace in front of a string does not change where the start of `trim` lands |
| Text.TrimEndBeforeWhitespace | athlete-allure-main/src/pages/CreatePost.tsx:51 | trailing whitespace after a string does not change where the end of `trim` lands |
| Text.TrimStartBeforeSuffix | athlete-allure-main/src/pages/CreatePost.tsx:51 | when a string is not all whitespace, the start of `trim` stops inside it and keeps what follows whole |
| Text.TrimIgnoresPadding | athlete-allure-main/src/pages/CreatePost.tsx:51 | padding a string with whitespace on either side does not change what `trim` returns |
| Text.ToLower | athlete-allure-main/src/pages/CreatePost.tsx:51 | `toLowerCase` keeps the length |
| Text.ToLowerSpec | athlete-allure-main/src/pages/CreatePost.tsx:51 | `toLowerCase` turns each ASCII capital into the same letter in lower case (32 code points on), leaves no upper-case letter, keeps every other character where it was, and keeps whitespace where it was |
| Text.StartsWith | athlete-allure-main/src/pages/Profile.tsx:118 | `startsWith`, compared character by character, holds exactly when the prefix is the string's first characters |
| Text.SameUpToCaseLowersAlike | athlete-allure-main/src/pages/CreatePost.tsx:51 | two strings that differ only in the case of ASCII letters lower-case to the same string |
| Text.TrimCommutesWithLower | athlete-allure-main/src/pages/CreatePost.tsx:51 | `trim` and `toLowerCase` can be applied in either order |
| Text.ToLowerOfLower | athlete-allure-main/src/pages/CreatePost.tsx:51 | lower-casing a string that has no upper-case letter changes nothing |
| Text.Extension | athlete-allure-main/src/pages/CreatePost.tsx:87 | `split(".").pop()` is no longer than the name and holds no `.` |
| Text.ExtensionIsLastSegment | athlete-allure-main/src/pages/CreatePost.tsx:87 | `split(".").pop()` is a suffix without `.`, preceded by `.` unless it is the whole name |
| Text.ExtensionAfterDot | athlete-allure-main/src/pages/Profile.tsx:139 | the extension of `base + "." + ext` is `ext` when `ext` holds no `.` |
| Text.ExtensionWithoutDot | athlete-allure-main/src/pages/Profile.tsx:139 | a name without `.` is its own extension |
| Media.MediaUrls | athlete-allure-main/src/components/PostCard.tsx:33-35 | a post shows its `media_urls` when that list is present and non-empty, otherwise `[media_url]`; never empty |
| CreatePost.NormalizeTag | athlete-allure-main/src/pages/CreatePost.tsx:51 | a normalised tag is trimmed, has no upper-case letter, is no longer than the input, and is empty exactly when the input is blank |
| CreatePost.NormalizeTagIdempotent | athlete-allure-main/src/pages/CreatePost.tsx:51 | normalising a tag twice is the same as once |
| CreatePost.NormalizeIgnoresPadding | athlete-allure-main/src/pages/CreatePost.tsx:51 | whitespace around an input does not change the tag it becomes |
| CreatePost.NormalizeIgnoresCase | athlete-allure-main/src/pages/CreatePost.tsx:51-52 | inputs that differ only in letter case become the same tag, so the duplicate check treats "Basketball" and "basketball" alike |
| CreatePost.IsTagIffNormal | athlete-allure-main/src/pages/CreatePost.tsx:51-53 | a stored tag (non-empty, trimmed, lower-case) is exactly a non-empty input that normalising leaves unchanged |
| CreatePost.AddTag | athlete-allure-main/src/pages/CreatePost.tsx:50-56 | the draft is either unchanged or gets the normalised tag appended with the input cleared; it grows exactly when the tag is non-empty, new and there are fewer than 10 |
| CreatePost.AddTagKeepsTagListOk | athlete-allure-main/src/pages/CreatePost.tsx:50-56 | adding a tag keeps a valid list valid: at most 10 tags, all distinct, each a stored tag |
| CreatePost.AddTagKeepsBounds | athlete-allure-main/src/pages/CreatePost.tsx:50-56 | adding a tag also keeps the input and every tag within the box's 30 characters |
| CreatePost.RemoveTag | athlete-allure-main/src/pages/CreatePost.tsx:58-60 | `filter` keeps exactly the entries other than the removed tag, never grows, and keeps a list free of duplicates |
| CreatePost.RemoveAbsentTag | athlete-allure-main/src/pages/CreatePost.tsx:58-60 | removing a tag not in the list changes nothing |
| CreatePost.RemoveTagAt | athlete-allure-main/src/pages/CreatePost.tsx:58-60 | in a list without duplicates, removing the tag at position k gives the list without position k, order kept |
| CreatePost.RemoveTagAppend | athlete-allure-main/src/pages/CreatePost.tsx:58-60 | removal distributes over concatenation |
| CreatePost.AddThenRemoveTag | athlete-allure-main/src/pages/CreatePost.tsx:50-60 | adding a tag and removing it again gives back the original list |
| CreatePost.SameTagAddedOnce | athlete-allure-main/src/pages/CreatePost.tsx:52 | two inputs with the same normal form are never both added |
| CreatePost.SelectFiles | athlete-allure-main/src/pages/CreatePost.tsx:24-48 | an empty selection is ignored; one that would pass 5 files is refused; otherwise it is appended after the files already chosen, at most 5 in all |
| CreatePost.UploadPath | athlete-allure-main/src/pages/CreatePost.tsx:87-88 | every upload path starts with the poster's id and `/` |
| CreatePost.UploadPathKeepsExtension | athlete-allure-main/src/pages/CreatePost.tsx:87-88 | the upload path `<user>/<random>.<ext>` has the chosen file's extension |
| CreatePost.FirstUploadError | athlete-allure-main/src/pages/CreatePost.tsx:86-101 | every upload before the returned index succeeded, and the upload at that index failed |
| CreatePost.FirstUploadErrorIs | athlete-allure-main/src/pages/CreatePost.tsx:86-101 | the first failed upload is the one at which every earlier upload succeeded and this one failed |
| CreatePost.FirstTagError | athlete-allure-main/src/pages/CreatePost.tsx:122-132 | every tag before the returned index was created and linked, and the tag at that index failed one of the two |
| CreatePost.UploadedUrls | athlete-allure-main/src/pages/CreatePost.tsx:83-100 | when all uploads succeeded, the collected URLs are their public URLs in file order |
| CreatePost.UploadCallsInOrder | athlete-allure-main/src/pages/CreatePost.tsx:86-92 | the first n upload calls are one per file, in file order, each with that file's path |
| CreatePost.TagCallsInOrder | athlete-allure-main/src/pages/CreatePost.tsx:122-132 | while the tags were created, the tag calls alternate create and link, in list order |
| CreatePost.TagCallsLength | athlete-allure-main/src/pages/CreatePost.tsx:122-132 | there are never more than two tag calls per tag |
| CreatePost.TagCallsUpToError | athlete-allure-main/src/pages/CreatePost.tsx:121-132 | the calls up to the first failing tag are create and link for each earlier tag, then that tag's create and, if it gave an id, its link |
| CreatePost.UploadPhase | athlete-allure-main/src/pages/CreatePost.tsx:86-101 | the upload loop succeeds exactly when every upload does, giving the URLs in file order; on failure it stops at the first failed file; every call is that file's upload |
| CreatePost.TagPhase | athlete-allure-main/src/pages/CreatePost.tsx:121-132 | the tag loop succeeds exactly when every tag is created and linked, and then issues create, link, create, link… in list order; otherwise it fails with the error of the first failing tag, after create and link for each earlier tag, that tag's create, and its link only if the create gave an id |
| CreatePost.Submit | athlete-allure-main/src/pages/CreatePost.tsx:69-150 | no file selected means no call at all; the submit posts exactly when every upload, the insert and every tag creation and link succeeded, and then reports the inserted id |
| CreatePost.UploadsComeFirstInOrder | athlete-allure-main/src/pages/CreatePost.tsx:86-104 | the submit's first calls are the uploads, one per file, in file order |
| CreatePost.UploadFailureStopsBeforeInsert | athlete-allure-main/src/pages/CreatePost.tsx:86-94 | a failed upload fails the submit with the message of the first failed upload; the calls are exactly the uploads up to that file, in file order, and no post row is written |
| CreatePost.PostedRowAndTagOrder | athlete-allure-main/src/pages/CreatePost.tsx:104-133 | a posted submit wrote one row with the poster's id, the caption and media type `image`, holding every uploaded URL in file order with `media_url` the first of them, then created and linked each tag in list order |
| CreatePost.InsertFailureStopsTags | athlete-allure-main/src/pages/CreatePost.tsx:104-112 | a failed post insert fails the submit with its message, after every upload and the one insert of the poster's row with the caption, the URLs and media type `image`; no tag is touched |
| CreatePost.TagErrorStopsRemainingLinks | athlete-allure-main/src/pages/CreatePost.tsx:121-132 | a tag error fails the submit with the first failing tag's error; after the insert of the poster's row come only the calls for the tags up to that one, in list order, ending with its create and, if it gave an id, its link |
| CreatePost.Composer.constructor | athlete-allure-main/src/pages/CreatePost.tsx:15-20 | the composer starts empty and valid |
| CreatePost.Composer.EditCaption | athlete-allure-main/src/pages/CreatePost.tsx:211 | the caption box sets the caption |
| CreatePost.Composer.EditTagInput | athlete-allure-main/src/pages/CreatePost.tsx:243-246 | the tag box holds at most 30 characters |
| CreatePost.Composer.HandleAddTag | athlete-allure-main/src/pages/CreatePost.tsx:50-56 | the tags and input become `AddTag` of the old ones, and the composer stays valid |
| CreatePost.Composer.HandleRemoveTag | athlete-allure-main/src/pages/CreatePost.tsx:58-60 | the tags become `RemoveTag` of the old ones, and the composer stays valid |
| CreatePost.Composer.HandleFileChange | athlete-allure-main/src/pages/CreatePost.tsx:24-48 | the files follow `SelectFiles`, and the "Too many files" toast fires exactly when it refuses |
| CreatePost.Composer.UploadFiles | athlete-allure-main/src/pages/CreatePost.tsx:83-101 | the upload loop returns what `UploadPhase` specifies |
| CreatePost.Composer.LinkTags | athlete-allure-main/src/pages/CreatePost.tsx:122-132 | the tag loop returns what `TagPhase` specifies |
| CreatePost.Composer.HandleSubmit | athlete-allure-main/src/pages/CreatePost.tsx:69-150 | the handler's outcome and calls are those of `Submit` |
| PostCard.LikeRequestFor | athlete-allure-main/src/components/PostCard.tsx:81-98 | a liked post's like row is deleted, otherwise one is inserted, always for this viewer and post |
| PostCard.AfterLike | athlete-allure-main/src/components/PostCard.tsx:88-98 | `isLiked` flips exactly when the call succeeded, and the likes of everyone else stay the same |
| PostCard.AfterReply | athlete-allure-main/src/components/PostCard.tsx:88-98 | on success the button shows what the sent request did (liked after an insert, not liked after a delete) and the count moves one step that way; a failure changes nothing |
| PostCard.ReplyToOwnRequest | athlete-allure-main/src/components/PostCard.tsx:81-98 | when nothing changed the button while its request was in flight, the reply flips it exactly as `AfterLike` says |
| PostCard.InsertReplyAfterLateCheck | athlete-allure-main/src/components/PostCard.tsx:42-98 | when the mount-time check answers during an insert and already shows the post liked, the successful reply keeps it liked and adds one to the count the check left |
| PostCard.LikeSteps | athlete-allure-main/src/components/PostCard.tsx:88-106 | a successful like adds one, a successful unlike takes one away, and a failed call changes nothing |
| PostCard.LikeThenUnlikeRestores | athlete-allure-main/src/components/PostCard.tsx:81-98 | a successful like followed by a successful unlike restores the button |
| PostCard.LikeSeries | athlete-allure-main/src/components/PostCard.tsx:76-110 | over any series of clicks the others' likes never move, `isLiked` flips once per success, and an even number of successes restores the button |
| PostCard.InitialLikes | athlete-allure-main/src/components/PostCard.tsx:21 | the count starts at `likes_count`, or 0 when it is missing |
| PostCard.PreviousImage | athlete-allure-main/src/components/PostCard.tsx:219 | the left arrow moves to `(i - 1) mod n` and stays in range |
| PostCard.NextImage | athlete-allure-main/src/components/PostCard.tsx:230 | the right arrow moves to `(i + 1) mod n` and stays in range |
| PostCard.ArrowsUndoEachOther | athlete-allure-main/src/components/PostCard.tsx:219-230 | each arrow undoes the other |
| PostCard.ArrowPresses | athlete-allure-main/src/components/PostCard.tsx:219-230 | k presses of the right arrow give `(i + k) mod n`, and k presses of the left give `(i - k) mod n` |
| PostCard.FullTurnReturns | athlete-allure-main/src/components/PostCard.tsx:219-230 | n presses of either arrow come back to the start |
| PostCard.CommentToSend | athlete-allure-main/src/components/PostCard.tsx:134-143 | a comment is sent exactly when none is in flight and the box is not blank, and what is sent is the trimmed text, non-empty |
| PostCard.Card.constructor | athlete-allure-main/src/components/PostCard.tsx:20-35 | the card starts unliked with `likes_count || 0` likes on the first of its images, with no comment loaded or typed |
| PostCard.Card.LikeChecked | athlete-allure-main/src/components/PostCard.tsx:42-55 | the mount-time check sets `isLiked` to whether a like row was found |
| PostCard.Card.BeginLike | athlete-allure-main/src/components/PostCard.tsx:76-98 | a click while a like is in flight sends nothing; otherwise it marks one in flight and sends, and remembers, the request for the current state |
| PostCard.Card.FinishLike | athlete-allure-main/src/components/PostCard.tsx:88-109 | the view becomes `AfterReply` of the old one and the request `BeginLike` sent, even if the mount-time check changed `isLiked` meanwhile; the parent is notified only on success, and `loading` is cleared |
| PostCard.Card.ShowPreviousImage | athlete-allure-main/src/components/PostCard.tsx:217-220 | the index becomes `PreviousImage` of the old one and stays in range |
| PostCard.Card.ShowNextImage | athlete-allure-main/src/components/PostCard.tsx:228-231 | the index becomes `NextImage` of the old one and stays in range |
| PostCard.Card.ShowImage | athlete-allure-main/src/components/PostCard.tsx:244-247 | a dot click shows that image |
| PostCard.Card.EditComment | athlete-allure-main/src/components/PostCard.tsx:377-380 | the comment box sets the text, and it is disabled while a comment is in flight |
| PostCard.Card.BeginComment | athlete-allure-main/src/components/PostCard.tsx:133-144 | the content sent is `CommentToSend` of the box, and the flag is raised exactly when something is sent |
| PostCard.Card.FinishComment | athlete-allure-main/src/components/PostCard.tsx:146-159 | on success the box is cleared, the comments become the awaited re-fetch's rows (kept when that fetch fails) and the parent is notified; on error the text and comments stay; the flag is cleared only after all of that, either way |
| PostCard.Card.ToggleComments | athlete-allure-main/src/components/PostCard.tsx:162-167 | the dialog toggles, and the comments are fetched exactly when it opens with none loaded |
| PostCard.Card.CommentsFetched | athlete-allure-main/src/components/PostCard.tsx:112-131 | fetched comments replace the list on success, and an error keeps it |
| Notifications.MarkRead | athlete-allure-main/src/pages/Notifications.tsx:86-92 | exactly the entries with that id become read, every other field and entry is unchanged, and order and length are kept |
| Notifications.MarkAllRead | athlete-allure-main/src/pages/Notifications.tsx:115-117 | every entry becomes read with every other field unchanged, order and length kept |
| Notifications.MarkReadIdempotent | athlete-allure-main/src/pages/Notifications.tsx:86-92 | marking the same notification twice is the same as once |
| Notifications.MarkAllReadAbsorbs | athlete-allure-main/src/pages/Notifications.tsx:86-117 | marking all is idempotent and absorbs an earlier single mark |
| Notifications.UnreadCount | athlete-allure-main/src/pages/Notifications.tsx:181 | the badge count is at most the list length and is zero exactly when everything is read |
| Notifications.UnreadAfterMarkAll | athlete-allure-main/src/pages/Notifications.tsx:115-117 | after a successful mark-all the badge is zero |
| Notifications.MarkReadLowersCount | athlete-allure-main/src/pages/Notifications.tsx:86-92 | marking one never raises the badge, and lowers it exactly when an unread entry has that id |
| Notifications.OnClick | athlete-allure-main/src/pages/Notifications.tsx:145-157 | a click marks read only an unread notification, and opens the sender's profile exactly when the notification has a non-empty post id or is a follow |
| Notifications.ShouldAutoMarkAll | athlete-allure-main/src/pages/Notifications.tsx:160-167 | the automatic mark-all fires exactly when a user is set and some notification is unread |
| Notifications.AutoMarkSettles | athlete-allure-main/src/pages/Notifications.tsx:160-167 | after a successful mark-all the automatic mark-all does not fire again |
| Notifications.Inbox.constructor | athlete-allure-main/src/pages/Notifications.tsx:28-30 | the page starts loading, with no user and no notifications |
| Notifications.Inbox.SessionLoaded | athlete-allure-main/src/pages/Notifications.tsx:34-46 | without a session the page goes to sign-in; with one it records the user and fetches that user's notifications |
| Notifications.Inbox.NotificationsFetched | athlete-allure-main/src/pages/Notifications.tsx:63-74 | the fetched rows replace the list on success, and the spinner stops either way |
| Notifications.Inbox.MarkAsRead | athlete-allure-main/src/pages/Notifications.tsx:77-101 | the list becomes `MarkRead` on success and is unchanged on error |
| Notifications.Inbox.MarkAllAsRead | athlete-allure-main/src/pages/Notifications.tsx:103-130 | nothing is sent without a user; otherwise the list becomes `MarkAllRead` on success and is unchanged on error |
| Profile.IsOwnProfile | athlete-allure-main/src/pages/Profile.tsx:48 | a profile is the viewer's own exactly when the route's user id is present and equals the viewer's |
| Profile.MountFetches | athlete-allure-main/src/pages/Profile.tsx:50-56 | the profile and posts are always fetched, and the follow check runs exactly when the profile is not the viewer's own |
| Profile.FollowRequestFor | athlete-allure-main/src/pages/Profile.tsx:278-293 | a follower's click deletes the follow row, anyone else's inserts it, with the viewer as follower of the profile's user |
| Profile.AfterFollow | athlete-allure-main/src/pages/Profile.tsx:286-301 | `isFollowing` flips on success and is kept on error |
| Profile.FollowTwiceRestores | athlete-allure-main/src/pages/Profile.tsx:278-294 | two successful clicks restore the button, and after a success the next request is the opposite one |
| Profile.CheckAvatar | athlete-allure-main/src/pages/Profile.tsx:114-135 | no file, a MIME type not starting with `image/`, and more than 5·1024·1024 bytes are rejected in that order; all else is accepted |
| Profile.AvatarSizeBoundary | athlete-allure-main/src/pages/Profile.tsx:128 | an image of exactly 5 MiB is accepted and one byte more is not |
| Profile.AvatarPath | athlete-allure-main/src/pages/Profile.tsx:139-141 | every avatar path starts with `profile-images/`, the user's id and `_` |
| Profile.AvatarPathKeepsExtension | athlete-allure-main/src/pages/Profile.tsx:139-141 | the avatar path keeps the chosen file's extension |
| Profile.UploadAvatar | athlete-allure-main/src/pages/Profile.tsx:113-179 | a rejected file sends nothing; an accepted one is uploaded under its avatar path, and the profile image is set to the public URL only after the upload succeeded; the update is reported done only when both succeeded |
| Profile.OrEmpty | athlete-allure-main/src/pages/Profile.tsx:105-108 | a missing text value is shown as `""` |
| Profile.EditDefaults | athlete-allure-main/src/pages/Profile.tsx:102-111 | the edit form shows the profile's values, with missing text fields as `""` and a missing sport as `other`, and is all blank without a profile |
| Profile.ApplyEdit | athlete-allure-main/src/pages/Profile.tsx:184-194 | the update keeps the profile's id and username, and reopening the dialog on the updated row shows exactly the form that was saved |
| Profile.SaveUnchangedForm | athlete-allure-main/src/pages/Profile.tsx:102-111 | saving the dialog untouched keeps every value the profile had and fills the missing ones with the defaults shown, and reopening shows the same form |
| Profile.HasMultipleImages | athlete-allure-main/src/pages/Profile.tsx:550-553 | the grid marks a post exactly when its `media_urls` holds more than one image |
| Profile.DeleteRequestFor | athlete-allure-main/src/pages/Profile.tsx:306-315 | a delete is sent exactly when a post is selected and none is in flight, and only for the viewer's own post |
| Profile.ProfileView.constructor | athlete-allure-main/src/pages/Profile.tsx:28-43 | the page starts loading, not following, with no post selected and every dialog closed |
| Profile.ProfileView.ProfileFetched | athlete-allure-main/src/pages/Profile.tsx:216-236 | a fetched profile is kept; an error sends the page home; the spinner stops either way |
| Profile.ProfileView.FollowingChecked | athlete-allure-main/src/pages/Profile.tsx:261-274 | the follow check sets `isFollowing` to whether a follow row was found |
| Profile.ProfileView.HandleFollow | athlete-allure-main/src/pages/Profile.tsx:276-303 | the request matches the current state, and `isFollowing` becomes `AfterFollow` of it, with a profile re-fetch only on success |
| Profile.ProfileView.OpenEditDialog | athlete-allure-main/src/pages/Profile.tsx:102-111 | the form becomes `EditDefaults` of the profile and the dialog opens |
| Profile.ProfileView.EditProfileForm | athlete-allure-main/src/pages/Profile.tsx:421-449 | a changed input replaces the form |
| Profile.ProfileView.SaveProfile | athlete-allure-main/src/pages/Profile.tsx:181-214 | the form is sent as it is; the dialog closes and the profile is re-fetched only on success |
| Profile.ProfileView.SelectPost | athlete-allure-main/src/pages/Profile.tsx:559-562 | a grid click selects that post and opens it |
| Profile.ProfileView.OpenDeleteDialog | athlete-allure-main/src/pages/Profile.tsx:678 | the menu item opens the confirmation |
| Profile.ProfileView.CancelDelete | athlete-allure-main/src/pages/Profile.tsx:713-714 | Cancel closes the confirmation, and it is disabled while a delete is in flight |
| Profile.ProfileView.BeginDeletePost | athlete-allure-main/src/pages/Profile.tsx:305-315 | the request is `DeleteRequestFor` of the selection and the in-flight flag, and the flag is raised exactly when a request is sent |
| Profile.ProfileView.FinishDeletePost | athlete-allure-main/src/pages/Profile.tsx:317-338 | on success both dialogs close and the selection clears, with posts and profile re-fetched; on error they stay; the flag is cleared either way |

## Left out

- Supabase itself is not modelled: queries, inserts, updates, deletes, storage uploads, `getPublicUrl` and the `create_tag_if_not_exists` procedure. Each is an input `Result` to the handler. The ordering and limits of fetched lists are the database's business.
- Toasts, `navigate`, `console.error` and rendering are not modelled. Navigation targets and "re-fetch" signals are returned as output values.
- `Math.random()` and `Date.now()` are opaque string inputs (`nonces`, `stamp`).
- Realtime subscriptions and the denormalised counters (`followers_count`, `posts_count`, `comments_count`) are out of scope: the client only re-fetches them.
- The FileReader previews in `handleFileChange` are left out: they are asynchronous callbacks whose order the code does not control.
- The `tagInserts` mapping in `handleSubmit` is left out because its values are never used.
- The `uploading` and `saving` flags only disable a button and are reset in `finally`. Their net effect across a handler is none, so they are not modelled.
- CreatePost.Composer.HandleSubmit is modelled as one step, so a second submit interleaving with a running one is not captured.
- Profile.ProfileView.HandleFollow is modelled as one step, so the race between two rapid clicks is not captured; the source has no in-flight guard there.
- PostCard.Card.BeginLike, PostCard.Card.BeginComment and Profile.ProfileView.BeginDeletePost do not model responses arriving after the component unmounted.
- Text.ToLower maps ASCII letters only; the rest of Unicode case mapping is not modelled.
- Notifications.Notification: `is_read` is a `bool`, as in the page's own interface; a database `null` is not modelled.
- Notifications.Inbox.NotificationsFetched: `data || []` on a successful reply with no data is taken as the empty list given in the `Ok` value.
- The fields of joined profiles (`username`, `profile_image_url` of senders and authors) and the like label `like`/`likes` are only displayed, so they are left out.
- PostCard's mount-time `fetchTags` only fills a list for display, so it is left out.
- Partly uploaded files are not cleaned up when a later upload fails, in the code and in the model alike.
