# Post card like toggle — a Dafny model

This project models the logic of the `PostCard` component of Linkup, a React
Native social feed client. A post card keeps a local list of like records
`{userId, postId}`. The list is seeded from the post's `postLikes` when the card
mounts. `liked` is derived from it by the current user's id. Tapping the heart
(`onLike`) either filters out every record of the current user or appends one
new record, and only then calls the backend. The card also decides which media
player to render from the stored file path, whether to show the owner's
edit/delete controls, whether "open details" navigates, and what it hands to the
share sheet.

Modules:

- `Optional` (option.dfy): `Option`, standing for JavaScript's `undefined`.
- `Likes` (likes.dfy): the like records, the two filters of `onLike` and
  `liked`, the toggled list, and lemmas about them.
- `Media` (media.dfy): `String.prototype.includes` as a recursive function
  proved against an explicit occurrence predicate, and the media kinds a file
  renders.
- `PostCard` (post_card.dfy): the `item` prop, the class `PostCardState` whose
  `likes` field the mount effect and `onLike` reassign, and the pure guards.

The backend's answer to the like request is a parameter of `OnLike`. The foreign
calls `stripHtmlTags` and `downloadFile(getSupabaseFileUri(...).uri)` are
function parameters of `ShareContentFor`.

A failed like request does not roll the list back: it raises an alert and keeps
the updated list. `OnLike`'s list does not depend on the backend's answer, and
the only effect of a failure is `alert`.

## Model

| member | source | states |
|---|---|---|
| `Likes.Without` | components/PostCard.jsx:76 | the unlike filter keeps exactly the records whose userId differs from the user, never grows the list, and leaves no record of the user |
| `Likes.LikesOf` | components/PostCard.jsx:131 | the `liked` filter keeps exactly the records of the user |
| `Likes.HasLiked` | components/PostCard.jsx:131-133 | `liked` holds exactly when some record in the list has the user's id |
| `Likes.Toggle` | components/PostCard.jsx:74-97 | the list installed by one `onLike` flips the user's membership |
| `Likes.Partition` | components/PostCard.jsx:76 | the unlike filter and the user's records together are the original list as a multiset, so their lengths add up |
| `Likes.WithoutKeepsOrder` | components/PostCard.jsx:76 | the unlike filter keeps the surviving records in their original relative order |
| `Likes.WithoutNoOp` | components/PostCard.jsx:76 | filtering a list that has no record of the user returns it unchanged |
| `Likes.WithoutAppend` | components/PostCard.jsx:76 | the unlike filter distributes over concatenation |
| `Likes.UnlikeBranch` | components/PostCard.jsx:75-78 | after the unlike branch no record of the user remains, every other user's record is kept as often as before and in order, and the list shrinks by the user's records |
| `Likes.LikeBranch` | components/PostCard.jsx:85-90 | the like branch keeps the old list as a prefix and appends exactly one record `{currentUser.id, item.id}`, growing the length by one |
| `Likes.ToggleTwiceFromUnliked` | components/PostCard.jsx:75-90 | from an unliked state two successive `onLike` calls give back the original list exactly |
| `Likes.ToggleTwiceFromLiked` | components/PostCard.jsx:75-90 | from a liked state two calls drop all the user's records and append one fresh record, so the list need not come back |
| `Likes.ToggleParity` | components/PostCard.jsx:74-97 | after n calls the user has liked exactly when the initial state XOR (n is odd) |
| `Media.Includes` | components/PostCard.jsx:185 | `includes` is true exactly when the substring occurs at some index |
| `Media.MediaShown` | components/PostCard.jsx:185-203 | an image is rendered iff the file is present and contains "postImages", a video iff it is present and contains "postVideos", independently |
| `Media.Present` | components/PostCard.jsx:107 | the truthiness of `item?.file`: the file is present and not the empty string |
| `Media.BothPlayersForBothFolders` | components/PostCard.jsx:185-203 | every path containing both folder names renders both an image and a video |
| `Media.BothFoldersExample` | components/PostCard.jsx:185-203 | such a path exists, so the two tests do not exclude each other |
| `Media.NoPlayerWithoutFolder` | components/PostCard.jsx:185-203 | a missing file or one naming neither folder renders no media |
| `PostCard.OpenPostDetails` | components/PostCard.jsx:64-72 | nothing happens when the more-icon is hidden; otherwise the push goes to the details of this post |
| `PostCard.ShowsOwnerActions` | components/PostCard.jsx:160 | edit/delete controls show exactly when `showDelete` holds and the viewer is the post's author |
| `PostCard.OwnerActionsOnlyForAuthor` | components/PostCard.jsx:160 | the controls never show on another user's post or without `showDelete` |
| `PostCard.ShareContentFor` | components/PostCard.jsx:103-114 | the share payload always carries the stripped body, and a url (the downloaded file) exactly when `item.file` is truthy |
| `PostCard.SharesUrlWhenMediaShown` | components/PostCard.jsx:103-114 | a post whose card renders media also shares a url |
| `PostCard.SharesUrlWithoutMedia` | components/PostCard.jsx:103-114 | every present file outside both media folders is shared but not rendered |
| `PostCard.SharesUrlWithoutMediaExample` | components/PostCard.jsx:103-114 | one concrete post, with file `"a"`, is shared but not rendered |
| `PostCard.PostCardState.constructor` | components/PostCard.jsx:49 | the first render starts with an empty like list |
| `PostCard.PostCardState.OnMount` | components/PostCard.jsx:99-101 | the mount effect sets the list, and so the displayed count, to the post's `postLikes` |
| `PostCard.PostCardState.Liked` | components/PostCard.jsx:131-133 | the card's `liked` is membership of the current user's id in its list |
| `PostCard.PostCardState.LikeCount` | components/PostCard.jsx:217 | the displayed count is the user's records plus everyone else's, and is positive whenever the heart is filled |
| `PostCard.PostCardState.OnLike` | components/PostCard.jsx:74-97 | the list becomes the toggled list whatever the backend answers, membership flips, the matching remove/create request is issued, and an alert is raised exactly when the request failed |
| `PostCard.DoubleTap` | components/PostCard.jsx:74-97 | on the class, two taps from the unliked state restore the list whatever the two backend answers |

## Left out

- Rendering, styles and layout: `StyleSheet`, `tagsStyles`, the Avatar, Icon, RenderHTML, Video and Image components, and the loading spinner of `onShare`. They are view code.
- components/Input.jsx, components/BackButton.jsx and app/_layout.jsx: view code, and a session callback whose branches are empty.
- `createPostLike`, `removePostLike`, `downloadFile`, `getSupabaseFileUri`, `stripHtmlTags`, `Share.share`, `Alert.alert` and `router.push`: their implementations are not part of this model. The backend's answer is a parameter, the other calls are function parameters or returned values.
- `handleDeletePost`, `onEdit` and `onDelete`: they only forward the post to callbacks of the caller. The edit button calls `onEdit` directly; `onDelete` runs behind a confirmation dialog.
- The creation date, formatted through `moment`: a library wrapper.
- Asynchrony: each `onLike` is one atomic step. Two taps that overlap before a re-render both read the same `liked`, and this is not modelled.
- `PostCard.ShareContentFor`: a `downloadFile` that fails and yields `null` is folded into the opaque result of `download`.
- `PostCard.PostCardState.OnMount`: `postLikes` is assumed to be a list. An `undefined` one would crash the next render at the unguarded `likes.filter` of components/PostCard.jsx:131.
- The current user is assumed present, as the unguarded `currentUser.id` in the owner-controls test requires. JavaScript loose equality is not modelled; user and post ids are integers.
- The comment count shown on the card is a display of the caller's data.
