# Chat conversation and call controls of the chess front end

This project models the two stateful pieces of the chess front end's
communication layer, with their library calls replaced by events:

- **The chat page** (`chess-frontend/src/pages/Chat.jsx`), module `ChatPage`.
  The class `Chat` holds the visible message log, the known users, the
  selected partner, the local user id and the text of the message input.
  Each socket.io or HTTP callback is a method. What the library delivers is a
  parameter: an inbound message, an announced user list, a fetched history
  (`None` for a failed GET), `saved` for the POST result, the answer to
  `window.confirm`. What the page sends out is a result: the POSTed message,
  the socket emit, the alert text, the navigation target. The three pure
  rules are separate functions. `Accepts` is the inbound filter. `MergeUsers`
  is the `[...new Set([...prev, ...userList])]` merge, built from `Insert`,
  the insertion behaviour of a JavaScript `Set`. `Trim` is
  `String.prototype.trim`, using the exact ECMAScript white-space and
  line-terminator set.
- **The video component** (`chess-frontend/src/components/VideoChat.js`),
  module `VideoCall`. The class `VideoChat` holds `showVideo`, `currentCall`
  (an `Option<CallId>`) and the streams attached to the local and the remote
  video element. A `MediaStream` owns an array of tracks, each with a
  `stopped` flag, and its `StopTracks` loop is the `forEach(track =>
  track.stop())`. `View()` gives the component's state as a value, and
  `Teardown` says what `disconnectCall` makes of it. The PeerJS calls (dial,
  answer, close) are results of the methods. The media and the call objects
  PeerJS hands back are parameters.

Behaviour of the code that is easy to miss:

- An incoming call is answered as soon as media is acquired. There is no
  ringing or accept step (`IncomingMediaAcquired`).
- A sent message is appended only after its POST succeeds, so nothing is
  appended optimistically (`SendMessage`).
- Hanging up while the media for an outgoing call is pending does not abort
  the dial. `HangUpWhileDialing` shows the result: a live stream stays
  attached and a call is recorded while the video is hidden.
- `currentCall` is never cleared, and `disconnectCall` keeps both stream
  references.
- A refused `getUserMedia` has no handler. After `CallPeer` the video stays
  shown, with no new call dialled.
- The `stream` handler does not check which call delivered the stream.
- The `close` handler does not check which call closed either. A `close`
  from an earlier call that is no longer current still runs
  `disconnectCall`, which closes the current call and stops its tracks.
- New media replaces the local video's stream without stopping the old
  one. When a second call is dialled or answered while the first call is
  still connected (no disconnect or `close` in between), the first call's
  local tracks stay live and the component keeps no reference to them. That
  earlier call is never closed either: a later disconnect closes only the
  new call, so the earlier one stays open and keeps sending that stream
  (`ReplacedStreamNeverStopped`). After a disconnect or `close`, the first
  call's tracks were already stopped and nothing leaks.
- The user list is fetched again whenever the local user or the partner
  changes, and a successful fetch replaces it. Users that only an
  `updateUsers` event had merged in are dropped again.
- The invite handler does not check that the invite is addressed to the
  local user.

When the partner is somebody else, the inbound filter accepts exactly the
two directions of that conversation (the contract of `Accepts`). So
`ReceiveMessage` and `SendMessage` keep a log that holds only the
conversation's messages in that state (`Chat.Focused`). A history load
replaces the log with whatever the server returned.

## Model

| member | source | states |
|---|---|---|
| `ChatPage.Accepts` | chess-frontend/src/pages/Chat.jsx:49-52 | the inbound filter: with a partner other than the local user it passes a message iff it goes from one of the two to the other, in either direction; with the local user as partner it passes every message the local user sends or receives |
| `ChatPage.Insert` | chess-frontend/src/pages/Chat.jsx:45 | adding values, in order, to an insertion-ordered set: the existing entries stay first and in order, and the result holds exactly the old entries and the added values |
| `ChatPage.SetOf` | chess-frontend/src/pages/Chat.jsx:45 | `[...new Set(xs)]`: the distinct values of `xs` in first-occurrence order, with no repeats and exactly the members of `xs` |
| `ChatPage.MergeUsers` | chess-frontend/src/pages/Chat.jsx:45 | `[...new Set([...prev, ...userList])]`: a list without repeats that holds a user iff it was known before or announced |
| `ChatPage.InsertProperties` | chess-frontend/src/pages/Chat.jsx:45 | inserting values into an insertion-ordered set keeps the existing entries first and in order, adds exactly the new values and never repeats one |
| `ChatPage.MergeUsersProperties` | chess-frontend/src/pages/Chat.jsx:45 | the merged user list has no repeated entry, holds a user iff it was known before or announced, and merging the same entries again changes nothing |
| `ChatPage.MergeUsersKeepsPrefix` | chess-frontend/src/pages/Chat.jsx:45 | the merged list begins with the previous list (its own repeats removed), in its original order, followed by the newly announced users; a duplicate-free previous list is kept exactly |
| `ChatPage.SetOfAppend` | chess-frontend/src/pages/Chat.jsx:45 | one more value goes to the end of the set exactly when it is not there yet, so the set lists the distinct values in first-occurrence order |
| `ChatPage.SetOfDistinct` | chess-frontend/src/pages/Chat.jsx:45 | spreading a `Set` built from a duplicate-free list gives back that list |
| `ChatPage.TrimStart` | chess-frontend/src/pages/Chat.jsx:85 | the result is a suffix of the input, everything removed is white space, and it does not begin with white space |
| `ChatPage.TrimEnd` | chess-frontend/src/pages/Chat.jsx:85 | the result is a prefix of the input, everything removed is white space, and it does not end with white space |
| `ChatPage.Trim` | chess-frontend/src/pages/Chat.jsx:85 | `message.trim()`: no longer than the input, empty iff the input is all white space, and neither beginning nor ending with white space |
| `ChatPage.Chat.constructor` | chess-frontend/src/pages/Chat.jsx:13-17 | the page mounts with an empty log, user list and input, no partner, and the stored user id (or "") |
| `ChatPage.Chat.Type` | chess-frontend/src/pages/Chat.jsx:194 | typing replaces the input text and nothing else |
| `ChatPage.Chat.Select` | chess-frontend/src/pages/Chat.jsx:156 | choosing a user makes its id the partner and changes nothing else |
| `ChatPage.Chat.UsersFetched` | chess-frontend/src/pages/Chat.jsx:35-40 | a successful user query replaces the list; a failed one leaves it |
| `ChatPage.Chat.UpdateUsers` | chess-frontend/src/pages/Chat.jsx:43-46 | the new list is the merge of the old list and the announcement: no user dropped, every announced user present, no repeats, prior entries first in order; only the user list changes |
| `ChatPage.Chat.ReceiveMessage` | chess-frontend/src/pages/Chat.jsx:48-55 | the message is appended at the end, with the earlier log unchanged, iff it involves the local user and the partner; otherwise the log is untouched; only the log changes, and when the partner is not the local user a log within the conversation stays within it |
| `ChatPage.Chat.LoadHistory` | chess-frontend/src/pages/Chat.jsx:73-82 | the history for (userId, partner) is requested iff both are non-empty; a successful response then replaces the whole log; otherwise the log is unchanged |
| `ChatPage.Chat.SendMessage` | chess-frontend/src/pages/Chat.jsx:84-106 | a blank text or no partner alerts and posts, emits and changes nothing; otherwise exactly {sender: userId, receiver: partner, text: input} is posted; it is emitted and appended and the input cleared iff the save succeeded; a failed save changes nothing |
| `ChatPage.Chat.InvitePlayer` | chess-frontend/src/pages/Chat.jsx:108-115 | with no partner nothing is emitted and the user is alerted; otherwise exactly {fromUser: userId, toUser: partner} is emitted and the user is told; no state changes |
| `ChatPage.Chat.InviteReceived` | chess-frontend/src/pages/Chat.jsx:57-61 | the user is asked with the inviter's name; an acceptance navigates to "/", a refusal yields no navigation; no state changes either way |
| `VideoCall.StopAll` | chess-frontend/src/components/VideoChat.js:63-64 | stopping a stream's tracks keeps their number and order and sets only each track's stopped flag |
| `VideoCall.StopAllProperties` | chess-frontend/src/components/VideoChat.js:63-64 | after stopping, every track is stopped with its kind kept, and stopping again changes nothing |
| `VideoCall.StopAllStopped` | chess-frontend/src/components/VideoChat.js:63-64 | stopping tracks that are all stopped leaves them as they are |
| `VideoCall.MediaStream.StopTracks` | chess-frontend/src/components/VideoChat.js:63-64 | the loop over the track array stops every track in place |
| `VideoCall.Teardown` | chess-frontend/src/components/VideoChat.js:61-66 | what `disconnectCall` makes of the state: the video hidden, every track of each attached stream stopped, the current call kept, which streams are attached and how many tracks each has unchanged; a missing stream is skipped |
| `VideoCall.TeardownIdempotent` | chess-frontend/src/components/VideoChat.js:61-66 | disconnecting twice gives the same state as once, and a torn-down state is left as it is |
| `VideoCall.VideoChat.constructor` | chess-frontend/src/components/VideoChat.js:8-12 | the component mounts with the video hidden, no call and nothing attached |
| `VideoCall.VideoChat.CallPeer` | chess-frontend/src/components/VideoChat.js:42-44 | the Call button shows the video before any media arrives and changes nothing else |
| `VideoCall.VideoChat.CallerMediaAcquired` | chess-frontend/src/components/VideoChat.js:45-48 | when the media arrives the stream is attached locally, the target is dialled with it and the returned call becomes current; the flag and the remote video are unchanged |
| `VideoCall.VideoChat.IncomingMediaAcquired` | chess-frontend/src/components/VideoChat.js:20-26 | for an incoming call, once media arrives, the stream is attached locally, the call is answered with it, becomes current, and the video is shown; the remote video is unchanged |
| `VideoCall.VideoChat.RemoteStream` | chess-frontend/src/components/VideoChat.js:28-30 | a `stream` event attaches the delivered stream to the remote video and changes nothing else |
| `VideoCall.VideoChat.DisconnectCall` | chess-frontend/src/components/VideoChat.js:61-66 | the current call (if any) is closed, the state becomes the teardown of the old one (all attached tracks stopped, video hidden), and the call and stream references are kept |
| `VideoCall.VideoChat.Closed` | chess-frontend/src/components/VideoChat.js:32-35 | a `close` event alerts "User disconnected" and performs the teardown |
| `VideoCall.DisconnectThenClosed` | chess-frontend/src/components/VideoChat.js:54-57 | a disconnect followed by the closed call's `close` event ends in the same state as one disconnect |
| `VideoCall.HangUpWhileDialing` | chess-frontend/src/components/VideoChat.js:42-59 | a hang-up before the outgoing call's media arrives is not a cancellation, in any state where the new stream is not yet attached: the call is still dialled and recorded, and the live local stream stays attached with the video hidden |
| `VideoCall.ReplacedStreamNeverStopped` | chess-frontend/src/components/VideoChat.js:44-48 | media for a new call replaces the local stream without stopping it; a later disconnect leaves the old stream's tracks exactly as they were |

## Left out

- The socket.io connection lifecycle and the registration and removal of listeners when the page's effects re-run: this is network plumbing. The handlers are modelled as reading the current `userId` and partner, which is what re-registration on every change of the two achieves.
- The HTTP requests themselves (users, history, message POST): each appears only as its outcome, a parameter.
- `ChatPage.Chat.LoadHistory`: the request and its response are one step. In the source, a response that arrives after the partner has changed again would still replace the log. That interleaving is not modelled.
- `ChatPage.Chat.UsersFetched`: the socket effect re-runs, and so fetches and replaces the user list again, whenever the local user or the partner changes. The model leaves the order of `Select`, `UpdateUsers` and `UsersFetched` to the caller and does not tie a fetch to a change of partner.
- `ChatPage.Chat.SendMessage`: the guard, the POST and its resolution are one step. Events that arrive while the POST is pending are not interleaved; in the source the appended message is the one built when Send was pressed, and the input is cleared even if it was edited meanwhile.
- `ChatPage.User`: user records from the server are objects that a `Set` compares by reference. They are abstracted as a reference number, and id strings compare by value; the records' fields are only displayed. Each socket.io announcement arrives as new objects, so "merging the same announcement again changes nothing" holds only for id strings and for the very same objects: a repeated announcement of user records is appended again every time.
- The `console.log` and `console.error` calls: they are logging only and change no state.
- `alert`, `window.confirm`, scrolling, and all rendering and styling: these are UI. `confirm` is a boolean input, and an alert is a returned text.
- PeerJS internals, the assignment of the peer id, and `getUserMedia`: these are library calls. Acquired media is an event that delivers a stream, and a refused request has no handler in the source, so it is no event at all.
- Whether PeerJS fires a call's `close` event synchronously inside `close()`. The teardown is idempotent (`TeardownIdempotent`), so the final state is the same either way.
- The check that the video elements are mounted (`userVideoRef.current` is assumed non-null): the elements are always rendered.
- `App.js` and `Dashboard.jsx` are routing only, and the video component is not mounted by the application. They are not part of this model.
- Ringing and accept steps, dial timeouts, busy rejection and the abort of a pending dial on hang-up are not modelled, because the code has none of them.
