# shrnq in Dafny

A model of the logic at the core of shrnq, a URL shortener built on Remix and Cloudflare Workers:

- **Slugs and the shorten action.** A slug is 5 symbols drawn from the 62-character alphabet `0-9A-Za-z`. `getUniqueKey` draws slugs until the KV namespace has a falsy value for one. The `/` action accepts only `https://` URLs, stores slug → URL and answers with the short URL `host/slug`. The catch-all route resolves a slug to a 301 redirect or a 404.
- **The KV wrapper.** `KVStore` holds a namespace handle that never changes. It has `put`, `get` (null becomes undefined) and `delete`.
- **Passkey verification.** The WebAuthn strategy's `verify` step covers registration and authentication. It runs against the `user` and `authenticator` tables through the user and authenticator repositories. The strategy's small callbacks are modelled too: relying party ID, origin, user details, and the authenticator list with its transports split.
- **Theme selection.** Covers the theme form enum, the switch's system → light → dark cycle, the fallback from optimistic value to stored preference to client hint, the theme action and the page title.
- **The general error boundary.** Covers message extraction from any thrown value and the choice of which handler renders an error.

Modules, one file each:

- `wrappers.dfy`: `Option` and `Result`.
- `text.dfy`: JavaScript `startsWith`, `indexOf`, and `split`/`join` with a string separator.
- `kv.dfy`: classes `Namespace` (the shared map) and `KVStore`.
- `shortener.dfy`: `app/routes/_index.tsx` and the catch-all `app/routes/$.tsx`.
- `schema.dfy`: table rows, the schema's constraints, and the queries as functions.
- `database.dfy`: class `Database` with both repositories as its methods.
- `auth.dfy`: `app/lib/authenticator.server.ts`.
- `theme.dfy`: `app/root.tsx`.
- `error_boundary.dfy`: `app/lib/error-boundary.tsx`.

Randomness, the clock and I/O outcomes are parameters:

- The slug generator is a finite list of draws. Each draw is 5 alphabet positions.
- The generated user id is `newUserId`.
- The database's `CURRENT_TIMESTAMP` is `now`.
- A failing KV write is the flag `putFails`.
- The schema library's URL-syntax check is the function `isUrl`.
- The request's domain URL is `domainUrl`.
- `Auth.RequestUrl`: the request URL arrives already parsed into scheme, hostname, port and pathname. The port is the one `new URL(request.url)` keeps, which is absent for the scheme's default port. `Auth.RpId` and `Auth.Origin` rely on this, and URL parsing itself is not modelled.

Behaviour of the code that is easy to misread, and that the model keeps:

- `getUniqueKey` tests the looked-up value for truthiness (`if (exists)`), so a key stored with an empty value counts as free. The resolver treats it as missing too. Both follow this, and `Shortener.TruthyIsPresent` shows that in a store of https URLs "falsy" means "absent".
- The catch-all route answers 404 on any falsy value, not only on a missing key.
- The schema declares no uniqueness for `credentialID`. Only the registration check keeps it, so it is a separate predicate: `Verify` preserves it, but `CreateAuthenticator` alone does not.
- With the foreign key on `authenticator.userId` in force, authentication can never fail with "User not found". `Auth.Verify` proves this.
- Two concurrent registrations of one username are not modelled, so the database's unique constraint is the only place a taken username is reported as a storage error. `CreateUser` models that constraint.
- `!username` also rejects the empty string.
- `useOptimisticThemeMode` takes the first fetcher whose `formAction` is `/` and then looks only at that fetcher's form data. An earlier fetcher to `/` without form data hides a later one that has it.

## Model

| member | source | states |
|---|---|---|
| `Kv.KVStore.constructor` | app/lib/kv.server.ts:1-6 | the wrapper holds the namespace it is given, in a `const` field, so it is never reassigned |
| `Kv.KVStore.Put` | app/lib/kv.server.ts:8-10 | the new namespace is the old one with `key` mapped to `value`; every other key reads as before |
| `Kv.KVStore.Get` | app/lib/kv.server.ts:12-16 | yields the stored value exactly when the key is present, otherwise nothing (never null); writes nothing |
| `Kv.KVStore.Delete` | app/lib/kv.server.ts:18-20 | the key is removed and reads as missing; every other key reads as before |
| `Kv.PutGetDelete` | app/lib/kv.server.ts:8-20 | through two wrappers of one namespace: a get after a put returns the value, a get after a delete returns nothing, other keys are untouched |
| `Shortener.AlphabetIsAlnum` | app/routes/_index.tsx:40-41 | the alphabet has 62 symbols in strictly ascending order (so all distinct), each of them in 0-9, A-Z or a-z, and it contains every such character |
| `Shortener.SymbolIndex` | app/routes/_index.tsx:40-41 | every alphanumeric character sits at some position below 62 in the alphabet |
| `Shortener.Slug` | app/routes/_index.tsx:40-42 | every generated key has length 5 and uses only alphanumeric characters |
| `Shortener.SlugIsBijective` | app/routes/_index.tsx:40-42 | distinct draws give distinct keys, and every 5-character alphanumeric string is some draw's key |
| `Shortener.UrlIssues` | app/routes/_index.tsx:28-36 | the field is valid iff present, URL-shaped and starting with `https://`; the https issue is reported iff the value does not start with `https://`, even when the URL check also fails; the invalid-URL issue is reported iff a present value fails the URL check; a missing field is reported as required |
| `Shortener.HttpUrlRefused` | app/routes/_index.tsx:33-35 | `http://example.com` is refused with "URL must start with https://" |
| `Shortener.GetUniqueKey` | app/routes/_index.tsx:57-66 | returns the first drawn key whose lookup is falsy, every earlier candidate having a truthy lookup; returns nothing only if every draw is taken; the result is a slug; the method has no frame, so it never writes the store |
| `Shortener.TruthyIsPresent` | app/routes/_index.tsx:59-61 | when every stored value is an https URL, a lookup is truthy exactly when the key is present |
| `Shortener.BaseUrl` | app/routes/_index.tsx:103 | the base URL is `BASE_URL` when set and non-empty, otherwise the request's domain URL |
| `Shortener.ShortUrl` | app/routes/_index.tsx:108 | the short URL always ends with `/` followed by the key |
| `Shortener.ShortUrlOfOrigin` | app/routes/_index.tsx:103-108 | for a base URL `scheme://host` the short URL is exactly `host/key` |
| `Shortener.ShortUrlWithoutScheme` | app/routes/_index.tsx:108 | a base URL without `://` gives `undefined/key` |
| `Shortener.Status` | app/routes/_index.tsx:80-119 | status 200 exactly for the idle and success answers, 400 exactly for an invalid form, 500 exactly for a failure |
| `Shortener.ErrorText` | app/routes/_index.tsx:84-119 | an error text comes exactly with a status of 400 or more: "Invalid submission" for an invalid form, "Something went wrong" for a failure |
| `Shortener.Shorten` | app/routes/_index.tsx:68-121 | idle exactly for a non-submit intent; 400 with the field's issues exactly for a submit whose URL has issues; a failure (no free draw, or the write fails) gives 500; the store changes only on success, so a submit with a valid URL, a free draw and a working write is answered with the short URL. On success exactly one slug is added, its lookup was falsy before, it maps to the submitted URL, and the answer is `ShortUrl(BaseUrl(...), key)`. That slug is the first draw whose lookup was falsy, and every earlier draw was taken. Keeps "every value is an https URL" |
| `Shortener.ShortenThenResolve` | app/routes/_index.tsx:97-109 | a submit with a valid URL, some free draw and a working write is shortened; after a successful shorten, the key read back off the end of the short URL and visited as `/key` redirects to the submitted URL |
| `Text.SplitJoin` | app/lib/authenticator.server.ts:42 | joining the pieces of `split(sep)` with `sep` gives the string back |
| `Text.SplitPiecesFree` | app/lib/authenticator.server.ts:42 | no piece of `split(sep)` contains `sep` |
| `Text.SplitUnique` | app/lib/authenticator.server.ts:42 | with a one-character separator, any non-empty list of separator-free pieces is the split of its own join, so `split` is the only such cut |
| `Schema.WithOwner` | app/modules/authenticator/repository.server.ts:15-26 | the inserted row carries every field of the given authenticator unchanged, with the supplied `userId`, and `createdAt` is the timestamp default `now` |
| `Schema.FindCredential` | app/modules/authenticator/repository.server.ts:7-14 | finds the first row with the credential ID; nothing exactly when no row has it |
| `Schema.OwnedBy` | app/modules/authenticator/repository.server.ts:27-34 | a row is in the result iff it is in the table and belongs to the user |
| `Schema.OwnedByAppend` | app/modules/authenticator/repository.server.ts:15-34 | appending a row extends exactly its owner's list, by that row, in table order |
| `Schema.FindCredentialAppend` | app/modules/authenticator/repository.server.ts:7-26 | appending a row keeps every earlier first match; an unmatched credential ID now matches the new row |
| `Schema.AppendFreshCredential` | app/db/schema.server.ts:34 | with credential IDs distinct, appending a row whose credential matches nothing keeps them distinct (the index itself does not) |
| `Schema.NoOwnerNoRows` | app/db/schema.server.ts:17-19 | under the foreign key, an id that no user has owns no authenticator |
| `Repository.Database.constructor` | app/db/schema.server.ts:4-36 | empty tables satisfy the schema's constraints |
| `Repository.Database.GetUserById` | app/modules/user/repository.server.ts:7-11 | returns a stored user with that id, or nothing exactly when none has it |
| `Repository.Database.GetUserByUsername` | app/modules/user/repository.server.ts:12-20 | returns a stored user with that username, or nothing exactly when none has it |
| `Repository.Database.CreateUser` | app/modules/user/repository.server.ts:21-37 | inserts exactly one row with the generated id and the username and returns both; fails without writing when the id (primary key) or the username (unique) is taken; keeps the constraints |
| `Repository.Database.GetAuthenticatorById` | app/modules/authenticator/repository.server.ts:7-14 | returns the first row with that credential ID, or nothing exactly when no row has it |
| `Repository.Database.CreateAuthenticator` | app/modules/authenticator/repository.server.ts:15-26 | appends exactly one row with all given fields and the owner's id; fails without writing when no user has that id (foreign key) |
| `Repository.Database.GetUserAuthenticators` | app/modules/authenticator/repository.server.ts:27-34 | returns exactly the rows owned by the user, in table order |
| `Repository.CreateUserThenFind` | app/modules/user/repository.server.ts:12-37 | after a successful create, looking the username up returns the created row |
| `Repository.CreateAuthenticatorThenFind` | app/modules/authenticator/repository.server.ts:7-34 | after a successful create, the credential is found and the new row is among the owner's authenticators |
| `Auth.RpId` | app/lib/authenticator.server.ts:22-24 | the relying party ID is the request's hostname |
| `Auth.Origin` | app/lib/authenticator.server.ts:26-28 | the origin is scheme, `://`, the relying party ID, and `:port` only for a non-default port |
| `Auth.GetUserDetails` | app/lib/authenticator.server.ts:47-49 | a user maps to its id and username; no user maps to null |
| `Auth.View` | app/lib/authenticator.server.ts:40-43 | the transports list joins back to the stored column, no entry contains a comma, and it has at least one entry (an empty column gives `[""]`) |
| `Auth.TransportsAreSplit` | app/lib/authenticator.server.ts:40-43 | from `View`'s contract alone, the list is exactly the column's `split(',')` |
| `Auth.UserAuthenticators` | app/lib/authenticator.server.ts:31-44 | one entry per row owned by the user, or by `''` when there is no user, in order, each entry being `View` of its row, so its transports are the column's `split(',')`; no user gives no authenticators |
| `Auth.ErrorMessage` | app/lib/authenticator.server.ts:81-113 | each failure of `verify` carries its own text: "Authenticator has already been registered.", "Username is required.", "User already exists.", "Authenticator not found", "User not found"; a storage failure carries the database's own message, which is not modelled |
| `Auth.Verify` | app/lib/authenticator.server.ts:70-115 | registration: a known credential gives "Authenticator has already been registered.", a missing or empty username gives "Username is required.", a taken username gives "User already exists.", and none of them writes. Otherwise exactly one user and one authenticator owned by it are added and that user is returned. Authentication: an unknown credential gives "Authenticator not found"; otherwise the owner of the first matching row is returned; nothing is written. Keeps the constraints and credential-ID uniqueness; never answers "User not found" |
| `Auth.RegisterTwice` | app/lib/authenticator.server.ts:74-104 | once a credential has been registered, registering it again under any username fails with the duplicate error |
| `Theme.ParseMode` | app/root.tsx:37-39 | the form accepts exactly `system`, `light` and `dark`, and the parsed mode's name is the submitted text |
| `Theme.ParseModeName` | app/root.tsx:37-39 | every mode's name parses back to that mode |
| `Theme.NextMode` | app/root.tsx:194-195 | the next mode always differs from the current one; system is followed by light and light by dark |
| `Theme.NextModeCycles` | app/root.tsx:194-195 | three steps return to the start and pass through all three modes |
| `Theme.DisplayedMode` | app/root.tsx:193 | the switch shows the optimistic mode, else the stored preference, else `system` |
| `Theme.UseTheme` | app/root.tsx:128-136 | an optimistic `system` gives the client hint, any other optimistic mode is used as is; without one, the preference if set, else the hint |
| `Theme.ThemeMatchesSwitch` | app/root.tsx:128-136 | the page's theme is the switch's displayed mode with `system` read as the client hint |
| `Theme.FindRootFetcher` | app/root.tsx:144 | finds the first fetcher posting to `/`; nothing exactly when none does |
| `Theme.OptimisticMode` | app/root.tsx:142-152 | an optimistic mode comes only from the first fetcher posting to `/`, which must carry form data whose `theme` field names that mode; conversely, when that first fetcher submits a `theme`, the result is that theme parsed; with no fetcher posting to `/` there is none |
| `Theme.FirstRootFetcherDecides` | app/root.tsx:144-151 | when the first fetcher posting to `/` has no form data, there is no optimistic mode, whatever later fetchers carry |
| `Theme.ThemeAction` | app/root.tsx:105-122 | idle exactly for a non-submit intent; 400 exactly for an unparsable theme; otherwise the submitted mode is saved |
| `Theme.ThemeStatus` | app/root.tsx:112-121 | status 400 exactly for an invalid theme submission, 200 for the idle and saved answers |
| `Theme.Title` | app/root.tsx:61-66 | the title is `shrnq` exactly when loader data is present, and "Error &#124; shrnq" otherwise |
| `ErrorBoundary.GetErrorMessage` | app/lib/error-boundary.tsx:13-25 | a string is its own message; an object with a string `message` gives that field; anything else gives "Unknown Error" |
| `ErrorBoundary.Render` | app/lib/error-boundary.tsx:27-57 | a route error response goes to the handler registered for its status, else to the default status handler (built in: the status line); any other value goes to the unexpected-error handler (built in: its message) |
| `ErrorBoundary.HandlersAreSeparate` | app/lib/error-boundary.tsx:49-54 | with a distinct unexpected-error handler, it is chosen exactly for values that are not route error responses |

The catch-all route `app/routes/$.tsx` is modelled by four members that the table cannot list, because of the `$` in that file's name:

- `Shortener.DropLeadingChar` (line 14): the key is the path without its first character, and it is empty for an empty path.
- `Shortener.Resolve` (lines 8-29): redirects exactly when the key's lookup is truthy, and the target is the stored value. It writes nothing.
- `Shortener.ResolutionStatus` (lines 20-28): 301 exactly for a redirect, 404 otherwise.
- `ErrorBoundary.NotFoundPage` (lines 39-62): the route's boundary shows its not-found page for a 404, and the default status line for any other status.

## Left out

- `Shortener.GetUniqueKey`: the source retries forever. The model walks a finite list of draws and returns nothing when it runs out, which the action answers with 500. Termination of the unbounded retry is not modelled.
- `Shortener.Shorten`: a `get` that throws during allocation is not a separate input. An exhausted draw list stands for every way allocation ends in the 500 branch, and `putFails` stands for a write that throws.
- The CSRF and honeypot checks that run before the form is parsed (app/routes/_index.tsx:73-74) are library wrappers with hard-coded secrets. They are not modelled.
- Form parsing itself is not modelled. The intent is a string, and an empty `url` field reaches the model as an absent one. The URL-syntax check is the parameter `isUrl`. "Required" and "Invalid url" are the schema library's default texts.
- `getDomainUrl` (app/lib/utils) is not part of this model. Its result is the parameter `domainUrl`.
- The index loader's `put('test', 'test')`.
- The binding names `SHRNQ` and `SHRNQ_KV`: both routes are given the same namespace.
- Concurrency: the check-then-act races in allocation and registration. One request runs at a time.
- Randomness: `nanoid` for slugs and user ids. Only the shape of a user id (10 characters) is required, not its alphabet.
- `Repository.Database.CreateUser`: `createdAt` is the parameter `now`. Of the database's failures only the primary-key, unique and foreign-key violations are modelled.
- `Auth.Verify`: the `invariant(context, …)` check is left out. The WebAuthn ceremony itself is left out too: challenge, signature check, and the signature counter, which the source never checks or updates. The model returns `{ id, username }` on both branches, whereas the authentication branch of the source returns the whole user row, including `createdAt`.
- Challenge generation (`generateOptions`), the login route, session storage and the redirect after login are library code.
- `app/lib/theme.server` and `app/lib/client-hints` are not part of this model. The theme cookie is represented by the mode `ThemeAction` saves, and the client hint is a parameter.
- All JSX rendering, the clipboard logic, `console.error`, and the root loader, headers and links.
- `ErrorBoundary.Render`: handlers are identified by name and their output is not modelled. An absent `statusHandlers` is the empty map, and `params` is not modelled. JavaScript numbers are integers.
