# Vidjot accounts, password reset and chat hub, in Dafny

This project models the two pieces of Vidjot that change state.

- **The `/user` router** (`routes/user.js`). It covers registration with password validation, the profile update keyed by an id held in the flash slot, and the forgot-password link. It also covers the GET and POST reset-password handlers.
  - The users table is a mutable `map<Id, User>` inside class `Accounts.UserTable`. Its `nextId` counter stands for the auto-increment primary key.
  - bcrypt is an uninterpreted function value `hash(password, salt)`. The caller supplies the salt that `bcrypt.genSalt(10)` would have made.
  - `jsonwebtoken` is the symbolic signer of module `Jwt`. A token records its claims, its signing key and its `exp` instant. `Verify` checks the signature first and the expiry second, and a token is expired once `now >= exp`. This is the order and the comparison `jsonwebtoken` uses.
  - The reset key is `JWT_SECRET + user.password`, the constant `"some super secret..."` followed by the stored hash. The lifetime `"15m"` is 900 seconds. The clock is an explicit `now`.
- **The socket.io hub** (`app.js:168-198`), class `ChatHub.Hub`.
  - Each connection has a display name and an outbox, the sequence of events emitted to it. The group store is a sequence of `{name, grp_id}` in insertion order.
  - A ghost log of every broadcast, plus the log position at which each connection joined, gives the hub invariant: each outbox is exactly the broadcasts dispatched since that connection opened.

Module `Scenarios` verifies example sessions, the forged-token counterexample and the single-use link through the handlers' contracts alone.

The model follows the code as written:
- POST reset-password does not verify the token (see Findings).
- GET reset-password with a token that fails verification renders nothing. The exception escapes the `try { } finally { }` and rejects the promise of the `.then` callback, and nothing handles that rejection. This is `ViewOutcome.Unanswered`. On Node 15 and later an unhandled rejection ends the process by default, which would also drop every hub connection; the model does not capture that.
- `req.flash('id')` returns an array. Sequelize reads `where: {id: [...]}` as `IN`. So the update changes every row whose id is in that array, and no row when it is empty.
- `new_grp` uses the event data itself as the group name, not a `name` field of it. Every group gets the literal id `"111"`.
- `password.length` counts UTF-16 code units (`Accounts.Utf16Length`). A character outside the Basic Multilingual Plane counts twice toward the minimum of 4.

## Model

| member | source | states |
|---|---|---|
| `Accounts.Utf16Length` | routes/user.js:27 | The JavaScript length of a string lies between its number of code points and twice that. |
| `Accounts.PasswordErrors` | routes/user.js:23-29 | The mismatch error is present iff the passwords differ. The length error is present iff the UTF-16 length is below 4. The list is empty iff both checks pass. It has at most two entries, and the mismatch error comes first when present. |
| `Accounts.ValidatePasswords` | routes/user.js:18-29 | The imperative pushes build exactly `PasswordErrors(password, password2)`. The reset handler's copy at lines 152-163 is the same. |
| `Accounts.ValidationError.Text` | routes/user.js:24-28 | The mismatch error reads "Passwords do not match" and the length error "Password must be at least 4 characters". These are the texts pushed at lines 24 and 28, and again at 157 and 161. |
| `Accounts.ResetKey` | routes/user.js:113 | The key is the secret followed by the password hash: its prefix of the secret's length is `JWT_SECRET`, and the rest is the hash. The same derivation is used at line 135. |
| `Accounts.ResetKeyInjective` | routes/user.js:113 | `JWT_SECRET + h1 == JWT_SECRET + h2` iff `h1 == h2`. |
| `Accounts.PasswordChangeInvalidates` | routes/user.js:135-137 | A token that verified under the key of the old hash is refused with an invalid signature under the key of any different hash, at every instant. |
| `Accounts.Flash.constructor` | app.js:130 | A fresh flash slot holds no ids. |
| `Accounts.Flash.Push` | routes/user.js:11-14 | Opening the update page appends the id to the flash slot. |
| `Accounts.Flash.Take` | routes/user.js:81 | Reading the slot returns every queued id in order and empties the slot. |
| `Accounts.UserTable.constructor` | config/DBConnection.js:18 | The table starts empty. It is trivially well numbered and email-unique. |
| `Accounts.UserTable.FindByEmail` | routes/user.js:40 | Returns nothing iff no row has the email. Otherwise it returns the id of a row with that email. |
| `Accounts.UserTable.Register` | routes/user.js:17-66 | Validation errors come back as the error list with the table untouched. A known email leaves the table untouched. Otherwise exactly one new row is added under a fresh id, holding name, email and `hash(password, salt)`, and every other row is kept. The id counter and email uniqueness are preserved. |
| `Accounts.UserTable.Update` | routes/user.js:80-105 | The rows whose ids came from the flash get the new name and email and keep their password. All other rows and the set of ids are unchanged. Email uniqueness survives if the flash ids name at most one row and no other row already has the new email. |
| `Accounts.UserTable.ShowForgot` | routes/user.js:107-128 | No link iff the email is unknown. The table is only read. A link names a user with that email. Its token carries exactly `{email, id}` and is signed with `JWT_SECRET + password`. It verifies under that key for the next 900 seconds and is expired from then on. |
| `Accounts.UserTable.ViewReset` | routes/user.js:130-147 | Invalid ID iff there is no such row. The form is shown iff the token verifies under the current key of that row, and it shows the stored email. Otherwise no page is rendered, and the reason is the verification error. |
| `Accounts.UserTable.SubmitReset` | routes/user.js:149-191 | As written. An unknown id changes nothing. Validation errors change nothing. Otherwise only the password field of that row becomes `hash(password, salt)`. The token appears in no condition. |
| `Accounts.UserTable.SubmitResetChecked` | routes/user.js:149-191 | Corrected handler. The token must verify under the current key of that row, as at lines 135-137, before any change. After a successful reset to a different hash, the same token is refused with an invalid signature forever. |
| `Jwt.Sign` | routes/user.js:118 | The signed token verifies under the signing key with the given claims from `now` until `now + expiresIn`. From then on it is refused as expired. Under any other key it is refused with an invalid signature, at every instant. |
| `Jwt.Verify` | routes/user.js:137 | Succeeds iff the key is the signing key and `now` is before `exp`, and then returns the token's own claims. An expiry error is only reported once the signature has matched. |
| `Jwt.SignThenVerify` | routes/user.js:118 | A token verifies under its signing key with its own claims from issue until its lifetime ends. |
| `Jwt.ExpiredTokenRejected` | routes/user.js:137 | From `iat + expiresIn` on, the signing key is refused with an expired error. |
| `Jwt.OtherKeyRejected` | routes/user.js:135-137 | Any key other than the signing key is refused with an invalid signature. |
| `ChatHub.Hub.constructor` | app.js:168 | No connections yet, the given group store, an empty broadcast log. |
| `ChatHub.Hub.Connect` | app.js:168-171 | Adds one connection under a fresh id, named "Anonymous" with an empty outbox. Nothing else changes. |
| `ChatHub.Hub.ChangeUsername` | app.js:173-175 | Only the sender's name changes. No other connection, no outbox and no group changes. |
| `ChatHub.Hub.Broadcast` | app.js:178 | Every connection open at dispatch gets the event appended to its outbox. No connection is added or removed. The invariant "outbox = broadcasts since joining" is kept. |
| `ChatHub.Hub.NewMessageFrom` | app.js:177-182 | Every open connection, the sender included, receives `{message, username}`. The username is the sender's at dispatch time. Groups are unchanged. |
| `ChatHub.Hub.ListGroups` | app.js:185-189 | The array filled record by record equals the group store, in store order. |
| `ChatHub.Hub.GetGroups` | app.js:184-192 | Every open connection receives one `groups` event with the full store. The store is unchanged. |
| `ChatHub.Hub.NewGroup` | app.js:194-197 | Appends exactly `{name: data, grp_id: "111"}` to the store. Nothing is emitted. |
| `Scenarios.RegisterTwice` | routes/user.js:40-54 | Registering "a@x.com" twice creates one row, then reports the duplicate. |
| `Scenarios.RegisterBadPasswords` | routes/user.js:23-37 | "abc"/"abd" is rejected with both errors in order, and the table stays empty. |
| `Scenarios.ForgedTokenResetsPassword` | routes/user.js:149-191 | As written, a token that fails verification under the user's key still changes the password. |
| `Scenarios.ForgedTokenRefused` | routes/user.js:135-137 | With the check, the same forged token is refused and the old password hash is kept. |
| `Scenarios.ResetLinkWorksOnce` | routes/user.js:107-191 | An issued link opens the form, resets the password, and then no longer opens the form. |
| `Scenarios.ExpiredLinkRefused` | routes/user.js:118 | A link opened 900 seconds after issue is refused as expired. |
| `Scenarios.ForgotUnknownEmail` | routes/user.js:122-126 | An unregistered email gets no link. |
| `Scenarios.UpdateCanDuplicateEmail` | routes/user.js:96-97 | The update can give two rows the same email. |
| `Scenarios.AnonymousHello` | app.js:171-182 | An unrenamed sender's "hi" reaches both peers as `{hi, Anonymous}`. |
| `Scenarios.RenameThenSpeak` | app.js:173-182 | After a rename, both peers see the new name on the next message. Only the sender's name changed. |
| `Scenarios.LateJoinerMissesMessage` | app.js:178 | A connection opened after a message has an empty outbox. |
| `Scenarios.CreateThenListGroups` | app.js:184-197 | `new_grp("Team A")` then `get_grp` gives every peer `groups [{Team A, 111}]`. |

## Left out

- Login (routes/user.js:69-78): the local passport strategy lives in `config/passport`, which is not part of this model.
- `config/DBConnection.js` and `app.js:1-164`: connection, table-sync, middleware and server start-up wiring, with no decision logic.
- Rendering, redirects, `alertMessage` flash texts, `console.log` output and the exact reset URL string: a link is modelled as the pair (id, token).
- Database and bcrypt failures (`.catch(err => console.log(err))`, `if (err) throw err`): the store and the hash are assumed to succeed.
- The asynchronous ordering of promise callbacks, and the non-atomicity of the two updates at routes/user.js:96-97: the updates run one after the other, and no other request interleaves.
- Email matching in `User.findOne({where: {email}})` (routes/user.js:40, 110) is the database's: under MySQL's default collations it ignores case and trailing spaces. `HasEmail` and `FindByEmail` use exact string equality, so the model registers "A@x.com" next to "a@x.com" where such a database refuses it.
- Random salt generation and bcrypt's work factor: the salt is a parameter and the hash is uninterpreted.
- JWT cryptography, header and encoding: tokens are symbolic values, and a URL token that does not parse is not modelled.
- Route parameters arrive as strings and are coerced by the database; ids are modelled as naturals.
- Form fields and socket event payloads that are missing (`undefined`) or are not strings: all are modelled as strings. The hub reads `data.username`, `data.message` and `data` (app.js:174, 179, 196), which are client-supplied JSON. A missing `data` throws inside the handler, and `new_grp` with an object would store a non-string name.
- Disconnection and socket.io transport: connections are only ever added.
- `Group.findAll()` has no `ORDER BY`: the model returns groups in insertion order. Sequelize's extra columns (`id`, timestamps) are not modelled.
- `Accounts.UserTable.Register`: does not state that the stored value differs from the plaintext. bcrypt is uninterpreted here, so the contract says only that the stored value is `hash(password, salt)`.
- `Accounts.UserTable.Update`: the `errors` array of the update handler is never filled, so its rejection branch (routes/user.js:87-92) cannot be taken and is not modelled.

## Findings

| source | as written | input that shows it | evidently intended | confidence | as-written member | corrected member |
|---|---|---|---|---|---|---|
| routes/user.js:149-191 | POST reset-password reads `token` from the URL but never calls `jwt.verify`. Any request naming an existing id with two equal passwords of length at least 4 replaces that user's password. | A registered user; a token signed with the bare `JWT_SECRET` instead of `JWT_SECRET + hash`; new password "attacker" twice | Verify the token under `JWT_SECRET + current hash` before validating and updating, as the GET handler does at lines 135-137. A used or expired link is then refused. | high, not executed | `Accounts.UserTable.SubmitReset`, `Scenarios.ForgedTokenResetsPassword` | `Accounts.UserTable.SubmitResetChecked`, `Scenarios.ForgedTokenRefused`, `Scenarios.ResetLinkWorksOnce` |
