# Chat application core, modelled in Dafny

This project models the server-side core of a chat application with two parts. The first is an Express/socket.io backend that uses Prisma for users, chats, contacts and blocks, and Mongo for messages and presence. The second is a SvelteKit frontend that signs users in through Keycloak. Every handler is a pure transition over immutable tables. It returns the new tables together with the response, the middleware decision, or the list of emitted socket events. Clocks and the token endpoint's answer are parameters.

Modules, one per component:

- `Js`: the JavaScript values handlers receive, and the coercions they apply:
  - truthiness;
  - `Number(x)`;
  - express-validator's `toString`;
  - one decimal parser standing for `parseInt`, `Number` and `isInt`.
- `MessageStore`, `ChatSocket`, `ChatSocketProperties`: the message collection and the five socket handlers of `socket.js`. Rooms are keyed by the raw value the client sent, as socket.io does. So the number 42 and the text "42" name different rooms, while the store keeps the numeric chat id. As in socket.io, each socket is also in the room named by its own id from the moment it connects.
- `Db`: the relational tables.
- `Http`: responses and middleware decisions.
- `Validation`: the shared validators.
- `Permissions`: the permission middleware.
- `Blocks`: the blocks controller.
- `AccessProperties`: how the permission gates answer after the controllers change the rows they read.
- `UserSync`: the token-to-user sync.
- `Users`: the current user controller.
- `LegacyUsers`: the first API revision's user controller.
- `Presence`: the status controller and its `UserStatus` document.
- `ErrorHandler`: the error middleware.
- `AuthCallbacks`: the frontend's `jwt` and `session` callbacks.
- `Hooks`: the frontend server hook.
- `RootPage`: the start page's `load`.

Behaviour is modelled as the code is written, including where it is surprising:

- `getUserById` validates a `userId` parameter but looks up the `id` parameter. It passes that text unchanged to a numeric column, which the query engine rejects. `Users.IdRouteAlwaysRejected` shows that on a path whose only parameter is `id`, the validator always refuses.
- `getUserByUsername` validates the body's `username` but looks up the route parameter. `Users.BodilessUsernameLookupRejected` shows that a request without a body never reaches the lookup.
- `updateUser` accepts the flag texts "true", "false", "1" and "0" in validation. The write then refuses anything but a real boolean, with a 400 (`Users.TextFlagFailsWrite`).
- The shared-chat test of `canViewUserProfile` asks for a chat all of whose members are one of the two users. A chat with no members, or with only the caller, satisfies it (`Permissions.EmptyChatOpensEveryProfile`, `Permissions.SoloChatOpensEveryProfile`).
- `updateStatus` moves `lastActive` on every update, whatever the status. The conditional spread for ONLINE rewrites the same field.
- `edit_message` and `delete_message` emit to the room of the stored numeric chat id. A client that joined the room under the text form of the id does not receive them (`ChatSocketProperties.StringRoomMissesEdits`).

## Model

| member | source | states |
|---|---|---|
| Js.ParseShowRoundTrip | backend-chat-app/app/src/middleware/validation.js:19 | the integer parser reads back the decimal text of every integer, so a numeric id written as text parses to itself |
| Js.PositiveNumberIsInt | backend-chat-app/app/src/middleware/validation.js:19 | `isInt({ min: 1 })` holds of a number exactly when it is at least 1 |
| Validation.HandleValidationErrors | backend-chat-app/app/src/middleware/validation.js:3-9 | the gate continues exactly when the error list is empty, and otherwise rejects with that very list |
| Validation.MatchesWord | backend-chat-app/app/src/middleware/validation.js:15 | `^[A-Za-z0-9_]+$` matches exactly the non-empty texts all of whose characters are letters, digits or underscores |
| Validation.UsernameErrors | backend-chat-app/app/src/middleware/validation.js:11-17 | no error exactly for usernames of length 3 to 50 made of word characters; at most two errors, all on `username`; a bad length always reports the length message |
| Validation.UserIdErrors | backend-chat-app/app/src/middleware/validation.js:19 | no error exactly when `userId` is an integer of at least 1; for a number, exactly when it is at least 1 |
| Validation.MissingUsernameRejected | backend-chat-app/app/src/middleware/validation.js:11-17 | an absent username is rejected by the gate |
| Validation.PositiveIdTextAccepted | backend-chat-app/app/src/middleware/validation.js:19 | the text of any positive integer passes the user-id validator |
| MessageStore.Save | backend-chat-app/app/src/socket.js:40-47 | saving adds exactly one fresh, unedited, undeleted record under a new id and keeps the store's invariants |
| MessageStore.UpdateIfOwner | backend-chat-app/app/src/socket.js:53-57 | the update happens exactly when the id exists, the sender matches and the message is not deleted; otherwise the store is unchanged |
| MessageStore.SortByCreated | backend-chat-app/app/src/socket.js:26 | the history sort returns a permutation of its input ordered by creation time |
| MessageStore.LastWindow | backend-chat-app/app/src/socket.js:27 | the window keeps the last 50 elements, in order |
| MessageStore.Recent | backend-chat-app/app/src/socket.js:24-30 | the history holds min(n, 50) of the chat's n messages, oldest first, each a stored message of that chat, no two alike; no message of the chat left out is newer than one returned |
| ChatSocket.KindOrText | backend-chat-app/app/src/socket.js:44 | the stored type is the given one when it is non-empty, else "text" |
| ChatSocket.Connect | backend-chat-app/app/src/socket.js:12 | a new connection puts the socket in the room named by its own id and changes no other room and not the store |
| ChatSocket.Disconnect | backend-chat-app/app/src/socket.js:77-79 | a disconnect removes the socket from every room and from the connected set, and leaves the store alone |
| ChatSocket.JoinChat | backend-chat-app/app/src/socket.js:16-31 | the socket joins the room of the raw key, other rooms are unchanged, and exactly one history event goes to the caller alone: the chat's recent history for a numeric key, empty otherwise |
| ChatSocket.SendMessage | backend-chat-app/app/src/socket.js:34-49 | exactly one record is added, with the numeric chat id or none, type defaulted to "text", unedited and undeleted; it is emitted once to the room of the key the client sent |
| ChatSocket.EditMessage | backend-chat-app/app/src/socket.js:52-59 | under the owner filter only content and the edited flag change, and the record goes to its stored chat's room; otherwise no change and no emit |
| ChatSocket.DeleteMessage | backend-chat-app/app/src/socket.js:62-69 | under the owner filter the record is soft-deleted with content cleared, and only its id is emitted; otherwise no change and no emit |
| ChatSocket.UpdateStatus | backend-chat-app/app/src/socket.js:72-75 | the payload is relayed unchanged to everyone and the server state is untouched |
| ChatSocketProperties.Run | backend-chat-app/app/src/socket.js:12-80 | every sequence of events preserves the room invariant: rooms are non-empty and hold connected sockets only |
| ChatSocketProperties.DeletedStaysDeleted | backend-chat-app/app/src/socket.js:52-69 | after any sequence of events a deleted record is still stored, unchanged, with empty content |
| ChatSocketProperties.HistoryOnlyToJoiner | backend-chat-app/app/src/socket.js:30 | no socket other than the joiner receives the history |
| ChatSocketProperties.NonNumericKeyJoinsWithoutHistory | backend-chat-app/app/src/socket.js:19-24 | a key that is not numeric yields an empty history |
| ChatSocketProperties.SendReachesRoom | backend-chat-app/app/src/socket.js:48 | exactly the sockets in the room of the key the client sent receive the new message, once each; the sender is among them when it joined that room |
| ChatSocketProperties.OwnRoomReceivesWithoutJoin | backend-chat-app/app/src/socket.js:34-48 | a socket that has just connected receives a message sent with its own id as the chat key, although it joined no room |
| ChatSocketProperties.SendStoresNumericChat | backend-chat-app/app/src/socket.js:36-41 | a numeric key is stored as the message's chat; an undefined or null key stores no chat |
| ChatSocketProperties.DeletedMessageIsFinal | backend-chat-app/app/src/socket.js:52-69 | once deleted, no edit or delete of that id by anyone changes anything or emits anything |
| ChatSocketProperties.OnlySenderEdits | backend-chat-app/app/src/socket.js:54 | a user other than the sender cannot edit a message |
| ChatSocketProperties.StringRoomMissesEdits | backend-chat-app/app/src/socket.js:48-58 | a message sent to the text key "n" is edited towards the numeric room n, so a socket that is only in the text room receives nothing |
| ChatSocketProperties.StatusReachesEveryone | backend-chat-app/app/src/socket.js:74 | every connected socket receives the status payload |
| ChatSocketProperties.JoinThenDisconnect | backend-chat-app/app/src/socket.js:16-79 | joining and then disconnecting leaves every room as it was before the join, minus the socket |
| Db.FindByUsername | backend-chat-app/app/src/authMiddleware.js:29 | the lookup finds a user with that username exactly when one exists |
| Permissions.RequireAdmin | backend-chat-app/app/src/middleware/permissions.js:4-20 | the gate passes exactly when the caller's row exists and is an admin; otherwise 403 |
| Permissions.RequireChatMembership | backend-chat-app/app/src/middleware/permissions.js:24-48 | a falsy chat id is a 400; otherwise the gate passes exactly when a membership row links the caller to the chat, else 403 |
| Permissions.RequireChatAdminOrOwner | backend-chat-app/app/src/middleware/permissions.js:51-81 | the gate passes exactly when the chat exists and the caller owns it or holds the OWNER or ADMIN role in it; otherwise 403 |
| Permissions.RequireResourceOwnership | backend-chat-app/app/src/middleware/permissions.js:84-136 | for user and status the path id must be the caller's; for contact and notification the row must exist and belong to the caller; other kinds pass unchecked; each refusal is a 403 with its kind's own message |
| Permissions.CanViewUserProfile | backend-chat-app/app/src/middleware/permissions.js:140-189 | self always passes; a missing target is a 404 "User not found"; otherwise the gate refuses exactly when there is no contact either way, no shared chat and the target is not searchable, and that refusal is the 403 "Access denied: You cannot view this user's profile" |
| Permissions.CanViewUserStatus | backend-chat-app/app/src/middleware/permissions.js:192-216 | self always passes; a missing target is a 404 "User not found"; otherwise the gate passes exactly when the target shows their status, and refuses with the 403 "This user does not allow their status to be viewed" |
| Permissions.CanReceiveInvites | backend-chat-app/app/src/middleware/permissions.js:218-238 | a falsy contact id is a 400, a non-number a 500, an unknown user a 404; otherwise the gate passes exactly when the user allows invites, and refuses with the 403 "This user does not allow invites" |
| Permissions.EmptyChatOpensEveryProfile | backend-chat-app/app/src/middleware/permissions.js:170-181 | a chat without members counts as shared, so every existing profile becomes visible |
| Permissions.SoloChatOpensEveryProfile | backend-chat-app/app/src/middleware/permissions.js:170-181 | a chat whose only member is the caller counts as shared with any target |
| Permissions.ConnectedSymmetric | backend-chat-app/app/src/middleware/permissions.js:161-168 | the contact test is symmetric in the two users |
| Permissions.SharedChatSymmetric | backend-chat-app/app/src/middleware/permissions.js:170-178 | the shared-chat test is symmetric in the two users |
| Permissions.ProfileVisibilitySymmetric | backend-chat-app/app/src/middleware/permissions.js:140-189 | between two existing non-searchable users, a can see b's profile exactly when b can see a's |
| Permissions.ManagerIsMember | backend-chat-app/app/src/middleware/permissions.js:24-81 | a chat owner or admin who holds a membership row passes the membership check |
| Blocks.GetBlocks | backend-chat-app/app/src/controllers/blocksController.js:8-30 | the list holds exactly the caller's blocks, each with its blocked user's summary, once each, in id order (an order the model chooses) |
| Blocks.BlockUser | backend-chat-app/app/src/controllers/blocksController.js:32-105 | the body id must be an integer of at least 1; blocking oneself is a 400, an unknown user a 404 and an existing block a 409, none of which changes anything; success adds the block and removes the contacts between the two |
| Blocks.AddBlockValid | backend-chat-app/app/src/controllers/blocksController.js:57-76 | a block added only after the existence and duplicate checks keeps at most one block per pair and no self-blocks |
| Blocks.UnblockUser | backend-chat-app/app/src/controllers/blocksController.js:107-137 | the id must be an integer of at least 1; the block is removed exactly when it exists and belongs to the caller, and otherwise it is a 404 with no change |
| Blocks.BlockFrame | backend-chat-app/app/src/controllers/blocksController.js:73-98 | a block adds exactly one row and removes exactly the contacts between the two users in either direction; every other row of every table is untouched |
| Blocks.SecondBlockConflicts | backend-chat-app/app/src/controllers/blocksController.js:57-71 | blocking the same user again is a 409 and changes nothing |
| Blocks.UnblockUndoesBlock | backend-chat-app/app/src/controllers/blocksController.js:107-132 | unblocking the block just created restores the block table |
| Blocks.OnlyBlockerUnblocks | backend-chat-app/app/src/controllers/blocksController.js:115-126 | a user who is not the blocker gets a 404 and the block stays |
| AccessProperties.StatusGateFollowsUpdate | backend-chat-app/app/src/middleware/permissions.js:192-216 | after an update sets `showStatus`, the user still sees their own status, and any other caller passes exactly when the new flag is true and gets a 403 otherwise |
| AccessProperties.StatusGateUntouched | backend-chat-app/app/src/middleware/permissions.js:202-211 | an update without `showStatus` changes no answer of the status gate, for any caller and any path |
| AccessProperties.InvitesGateFollowsUpdate | backend-chat-app/app/src/middleware/permissions.js:218-238 | after an update sets `allowInvites`, an invitation naming that user passes exactly when the new flag is true and gets a 403 otherwise |
| AccessProperties.InvitesGateUntouched | backend-chat-app/app/src/middleware/permissions.js:224-234 | an update without `allowInvites` changes no answer of the invite gate |
| AccessProperties.OwnUserPassesProfileGate | backend-chat-app/app/src/middleware/permissions.js:84-150 | a path id that passes the `user` ownership gate also passes the profile gate, since it names the caller |
| AccessProperties.OwnStatusPassesStatusGate | backend-chat-app/app/src/middleware/permissions.js:98-200 | an id that passes the `status` ownership gate, given as `userId`, passes the status gate |
| AccessProperties.BlockRevokesContactAccess | backend-chat-app/app/src/controllers/blocksController.js:89-98 | after a block, a contact row that linked the caller to the blocked user fails the `contact` ownership gate with a 403; the caller's other contacts answer as before |
| UserSync.CreateFromToken | backend-chat-app/app/src/authMiddleware.js:30-39 | an unknown user is created once, under a fresh id, with display name equal to the username and the token's admin flag, unless the email is taken |
| UserSync.RefreshFromToken | backend-chat-app/app/src/authMiddleware.js:40-55 | a known user gets the token's email and admin flag and nothing else changes; nothing is written when both already match |
| UserSync.SyncUser | backend-chat-app/app/src/authMiddleware.js:20-61 | missing claims are a 400 with no change; the admin flag is true exactly when the roles contain "admin"; the request's user is the stored row; the user table's uniqueness invariants hold afterwards |
| UserSync.SyncIsIdempotent | backend-chat-app/app/src/authMiddleware.js:42-55 | a second sync with the same claims writes nothing and yields the same user |
| UserSync.AdminGateFollowsToken | backend-chat-app/app/src/authMiddleware.js:27 | after a sync, the admin gate passes exactly when the token carried the admin role |
| Users.GetSelf | backend-chat-app/app/src/controllers/userController.js:13-25 | the reply has exactly the keys id, displayName and avatarUrl, holding the caller's id, display name and avatar (null when unset) |
| Users.ProfileView | backend-chat-app/app/src/controllers/userController.js:36-46 | a profile has exactly the nine selected keys, each holding the row's value of that column (the avatar null when unset), and never the email, the admin flag or searchable |
| Users.SelfAgreesWithProfile | backend-chat-app/app/src/controllers/userController.js:13-46 | every field of the caller's summary appears with the same value in their profile |
| Users.GetUserById | backend-chat-app/app/src/controllers/userController.js:27-60 | validation of `userId` first; a numeric `id` of an existing user yields its profile, an unknown one a 404; a non-numeric `id` fails the query |
| Users.IdRouteAlwaysRejected | backend-chat-app/app/src/controllers/userController.js:28-32 | with only an `id` parameter, the lookup by id is always refused by its validator |
| Users.GetUserByUsername | backend-chat-app/app/src/controllers/userController.js:62-95 | the body's username must be valid; the route's username yields the profile of the user with that name, or a 404 when no user has it |
| Users.BodilessUsernameLookupRejected | backend-chat-app/app/src/controllers/userController.js:63-67 | a request without a body never reaches the lookup by username |
| Users.UpdateErrors | backend-chat-app/app/src/controllers/userController.js:5-11 | no error exactly when each present field is well formed: display name of length 1 to 100, avatar a string of at most 255, flags boolean texts; every error names a present field |
| Users.Patched | backend-chat-app/app/src/controllers/userController.js:103-108 | each of the five fields takes the body's value when present and keeps its value when absent; every other column is unchanged |
| Users.UpdateUser | backend-chat-app/app/src/controllers/userController.js:97-121 | invalid bodies get the validator's errors; success writes exactly the present fields of the named user and touches nothing else; every failure of the write is a 400 with no change |
| Users.UpdateIsIdempotent | backend-chat-app/app/src/controllers/userController.js:101-115 | sending the same update twice leaves the second with nothing to change |
| Users.TextFlagFailsWrite | backend-chat-app/app/src/controllers/userController.js:8-118 | a flag sent as the text "true" passes validation but the write fails with a 400 and no change |
| LegacyUsers.GetAllUsers | backend-chat-app/src/controllers/userController.js:5-12 | the list holds every row and nothing else |
| LegacyUsers.CreateUser | backend-chat-app/src/controllers/userController.js:14-35 | both name and email must be truthy (400); a field that is not a string is rejected by the engine (500); an email in use is a 409; success adds one row under a fresh id; emails stay unique |
| LegacyUsers.GetUserById | backend-chat-app/src/controllers/userController.js:37-55 | the row with the parsed id, or a 404 |
| LegacyUsers.UpdateUser | backend-chat-app/src/controllers/userController.js:57-93 | at least one field must be truthy (400); an unknown id is a 404; a present field that is not a string, null included, is rejected by the engine (500); each present field replaces the stored one; an email held by another row is a 409; emails stay unique |
| LegacyUsers.DeleteUser | backend-chat-app/src/controllers/userController.js:95-119 | an unknown id is a 404 with no change; otherwise exactly that row is removed |
| LegacyUsers.CreateThenGet | backend-chat-app/src/controllers/userController.js:22-51 | a created user is then found under its id |
| LegacyUsers.SecondCreateConflicts | backend-chat-app/src/controllers/userController.js:30-32 | a second user with the same email is refused with a 409 |
| LegacyUsers.DeleteThenGet | backend-chat-app/src/controllers/userController.js:99-115 | after a delete the id is not found, and a second delete is a 404 |
| LegacyUsers.UpdateThenGet | backend-chat-app/src/controllers/userController.js:76-86 | a successful update is what a lookup by the same id then returns |
| LegacyUsers.NonTextFieldFailsCreate | backend-chat-app/src/controllers/userController.js:18-34 | a truthy number as the name passes the presence check and then fails the create with a 500 and no change |
| LegacyUsers.NullNameFailsUpdate | backend-chat-app/src/controllers/userController.js:61-91 | `name: null` with a truthy email passes the at-least-one check, is sent on as null, and fails the update with a 500 and no change |
| Presence.ParseStatus | backend-chat-app/app/src/controllers/statusController.js:7 | a status is accepted exactly when its text is ONLINE, OFFLINE or BUSY |
| Presence.StatusNameRoundTrip | backend-chat-app/app/mongoose/models/UserStatus.js:5 | each stored status's text is accepted back as that status |
| Presence.GetStatus | backend-chat-app/app/src/controllers/statusController.js:9-30 | `userId` must be an integer of at least 1; the existing document is returned without change; otherwise a default one (OFFLINE, last active now) is created; one document per user is kept |
| Presence.UpdateStatus | backend-chat-app/app/src/controllers/statusController.js:32-62 | only ONLINE, OFFLINE or BUSY are accepted; afterwards the caller's single document holds that status with last active now, and nothing else changes |
| Presence.GetStatusIsIdempotent | backend-chat-app/app/src/controllers/statusController.js:16-23 | a second read changes nothing and returns the same document |
| Presence.UpdateThenGet | backend-chat-app/app/src/controllers/statusController.js:40-52 | after an update, reading the caller's status returns the written status and time |
| Presence.UpdateLeavesOthers | backend-chat-app/app/src/controllers/statusController.js:40-41 | an update touches only the caller's document |
| ErrorHandler.HandleError | backend-chat-app/app/src/middleware/errorHandler.js:2-12 | it delegates exactly when headers were sent; the status is the error's when truthy, else 500; the message is the error's when non-empty, else the default; the stack is included exactly outside production |
| ErrorHandler.ReplyIsWellFormed | backend-chat-app/app/src/middleware/errorHandler.js:7-9 | a reply never has status 0 or an empty message |
| ErrorHandler.ProductionHidesStack | backend-chat-app/app/src/middleware/errorHandler.js:10 | in production no reply carries a stack |
| ErrorHandler.HandlerErrorsPassThrough | backend-chat-app/app/src/middleware/errorHandler.js:7-9 | an error a controller built with a status and a message reaches the client unchanged |
| AuthCallbacks.SessionCallback | frontend-chat-app/app/src/auth.server.js:37-46 | access and id tokens are copied; with an access token the roles are its realm roles or the empty list; without one they are left unset |
| AuthCallbacks.SessionRolesFromToken | frontend-chat-app/app/src/auth.server.js:41-44 | with an access token, a role shows in the session exactly when the token's realm roles contain it |
| AuthCallbacks.SignInExpiry | frontend-chat-app/app/src/auth.server.js:52 | the expiry is the account's when truthy; else the current second plus `expires_in` when truthy; else none |
| AuthCallbacks.WithAccount | frontend-chat-app/app/src/auth.server.js:48-53 | with an account, its access, id and refresh tokens and the sign-in expiry replace the token's |
| AuthCallbacks.RefreshWindowInMillis | frontend-chat-app/app/src/auth.server.js:55 | the real-division window test equals the integer test: now in ms is past 1000 × (expires_at − 60) |
| AuthCallbacks.JwtCallback | frontend-chat-app/app/src/auth.server.js:47-68 | outside the window the token is kept; on refresh success the new tokens and expiry replace the old, keeping the old refresh token when none came back; on failure only the error is set |
| AuthCallbacks.RefreshTokenKept | frontend-chat-app/app/src/auth.server.js:55-66 | between sign-ins a refresh token, once held, is never lost |
| AuthCallbacks.RefreshWindowOnlyGrows | frontend-chat-app/app/src/auth.server.js:55 | a token in its refresh window stays in it as time goes on |
| AuthCallbacks.RefreshedTokenIsFresh | frontend-chat-app/app/src/auth.server.js:57-61 | after a successful refresh with a lifetime over 60 seconds, running the callback again at the same instant changes nothing |
| Hooks.StartsWith | frontend-chat-app/app/src/hooks.server.js:17-26 | the prefix test is the sequence-prefix relation |
| Hooks.Authorize | frontend-chat-app/app/src/hooks.server.js:15-35 | a redirect (303 to "/") happens exactly for a "/chat…" path without a session or an "/admin…" path without an admin session; everything else resolves |
| Hooks.PrefixGuardsLongerPaths | frontend-chat-app/app/src/hooks.server.js:17-26 | "/chatroom" and "/administrator" are guarded too |
| Hooks.FindFrom | frontend-chat-app/app/src/hooks.server.js:11 | the search returns the first occurrence of the pattern at or after the start, or none when there is none |
| Hooks.ReplaceFirstSpec | frontend-chat-app/app/src/hooks.server.js:11 | the replacement substitutes the first occurrence of the pattern and nothing else |
| Hooks.ReplaceAbsent | frontend-chat-app/app/src/hooks.server.js:11 | a page without the placeholder is left unchanged |
| Hooks.Handle | frontend-chat-app/app/src/hooks.server.js:6-40 | a guard's redirect ends the request before the locale step; a request that passes is rendered with the placeholder replaced by the locale |
| Hooks.UnguardedPathsRender | frontend-chat-app/app/src/hooks.server.js:34 | paths under neither prefix are always rendered |
| Hooks.LocaleWrittenOnce | frontend-chat-app/app/src/hooks.server.js:11 | a page starting with the placeholder gets the locale there and keeps the rest |
| RootPage.Load | frontend-chat-app/app/src/routes/+page.server.js:3-15 | an admin session goes to "/admin" even with a user; another session with a user goes to "/chat"; everything else stays |
| RootPage.NoRedirectLoop | frontend-chat-app/app/src/routes/+page.server.js:7-14 | the start page is never guarded, and wherever it redirects, the guard lets the same session in |

## Left out

- Transport and wiring are not modelled: socket.io's transport, CORS, logging, connection setup and `app.js`/route files. Handlers are single atomic transitions, and concurrent requests are not interleaved.
- Route and import mismatches are not modelled. These are: the unblock route's `:blockedId` parameter against `req.params.id`; exports the user routes import that do not exist; `blocksController` taking a default import that `validation.js` does not provide; and `statusController` importing a validation module that is not part of this model. The handlers are modelled as if wired.
- `checkJwt` (token signature verification) and the `refreshKeycloakToken` request are left out. Verified claims and the refresh outcome are inputs.
- The query engines are not modelled. Prisma and Mongo become maps. Only the engine errors the handlers react to are modelled: a value of the wrong type for its column, a missing unique key, a unique-constraint clash on email, and a missing row to update. Where the handler replies with the engine's own message, that text is a stand-in constant.
- A route parameter that does not parse as an integer is treated as matching no row. The engine might reject such a parameter instead, which would give a 500.
- `parseInt` and `Number` are modelled by one parser: an optional sign and decimal digits. Leading whitespace, a numeric prefix followed by other characters, hexadecimal and fractions are left out. The same goes for validator.js's handling of them and for UTF-16 length counting in `isLength`.
- Request bodies are flat objects of undefined, null, booleans, integers and strings. Arrays, nested objects and floating point numbers are left out.
- Socket payload fields other than `chatId` are typed more narrowly. The `send_message` username and content are strings and its `type` is an optional string. The edit and delete `username` is a string, and so is the edit `content`. So a missing username, a `type` that is not a string (`0`, `5`, `true`), or an edit without `content` or with non-string `content` is not represented. In the source, such an edit still matches the owner filter and sets `isEdited`. For `data.type || 'text'` the model covers only texts and absence. The `update_status` payload is relayed whatever it is; `StatusPayload(userId, status)` stands for that arbitrary value, and payloads of any other shape are not represented.
- The `Message.js` schema is not the one the socket handlers assume. It requires `sender`, `receiver` and `content` and has no `chatId`, `senderUsername`, `type`, `media`, `isEdited` or `isDeleted`. As written, `msg.save()` in `send_message` would fail validation, and the `isDeleted: false` filter of edit and delete would rely on a default the schema does not declare. The model assumes a schema that matches `socket.js`, with `isEdited` and `isDeleted` defaulting to false.
- Blocks.GetBlocks: the list is in block id order. `findMany` in `blocksController.js` has no `orderBy`, so the engine's order is unspecified and the id order is a choice of the model.
- Hooks.ReplaceFirst: the locale is inserted literally. JavaScript's `String.replace` would expand `$&`, `` $` `` and `$'` in the replacement, but a locale tag never contains `$`.
- The history's tie order is not modelled. Messages created at the same instant keep identifier order. Mongo leaves their order unspecified, and `Recent` states only what holds either way.
- UserSync.CreateFromToken / UserSync.RefreshFromToken: the email column is assumed unique in the current revision's user table, as it is in the first revision's, whose handlers answer a unique-constraint clash on email with a 409. So a token whose email belongs to another user gives a 500 here. The current revision's schema is not part of this model, and the only uniqueness its code shows is the `findUnique` on `username`. Without that constraint, the create and the email write would succeed instead.
- LegacyUsers.CreateUser / LegacyUsers.UpdateUser: name and email are assumed to be required text columns, so the engine rejects `null` as well as every other non-string. A nullable column would store the `null` an update sends. The engine's 500 message texts are the handlers' own; the engine's error detail is not modelled.
- Columns the handlers never set take assumed defaults: new users from the token are shown, inviteable, searchable and unverified. `updatedAt` is not advanced on update, because the Prisma schema is not part of this model.
- One clock reading is used per request, where the source calls `Date.now()` more than once within a callback.
- `jwtDecode` is modelled as the access token's stored realm roles. A token that does not decode is left out.
- `paraglideMiddleware` and the authentication handle are library code. They appear only as the session and locale they supply.
- `messageController.js`, `ChatHistory.js`, `mongoose/connection.js`, the stub controllers and the frontend fetch loaders are left out. They hold schema text, constant answers or I/O.
- An authenticated caller is assumed throughout. The caller is an `int` id in `Permissions`, `Blocks` and `Presence.UpdateStatus`, and a `User` row in `Users.GetSelf`. The source reads `req.user?.id` or `req.user.id`, and a missing `req.user` is left out. The router in `routes/api.js` runs `checkJwt` and `syncUserWithDatabase` before every route it mounts, so those handlers always see a user.
- Roles other than OWNER and ADMIN are collapsed into `Member`.
