# Dog discovery session, modelled in Dafny

The application shows random dog pictures. Each dog gets a breed, read off
the image URL, plus a size, an origin and a lifespan drawn at random from
fixed lists. The user can ban the size, origin or lifespan of the current
dog by clicking it (src/App.jsx:89-91); the breed is shown but cannot be
banned. A discovery discards
every candidate with a banned attribute and fetches again. The first
candidate that passes becomes the current dog and is appended to the
seen-dogs gallery. This model covers that state handling in the `App`
component.

- `split.dfy` (module `Split`): JavaScript's `split` with a one-character
  separator, with its round trip against `join`.
- `ban_list.dfy` (module `BanList`): `banProperty` and `unbanProperty` as
  pure functions on the ordered ban list, with their lemmas.
- `dog_provider.dfy` (module `DogProvider`): the three attribute lists.
  `Math.floor(Math.random() * n)` is modelled over a real in [0, 1). The
  module also holds breed extraction, the ban test and one fetch attempt
  (`Try`).
- `session.dfy` (module `SessionState`): the `Session` class holds the
  state cells `dog`, `banList`, `seenDogs` and `loading`. `Discover` runs the
  retry loop `SkipRejected` over the provider's draws and is proved against
  the specification function `Run`, which applies the retry policy `Settle`
  to the attempts. Lemmas characterise `Settle` and `Run`.

The network response and the random numbers are inputs. One attempt
consumes one `Draw`: the response plus three rolls in [0, 1). A discovery
takes a finite sequence of draws. Where the source would keep retrying, the
model stops with `Exhausted` once the draws run out.

Three behaviours of the code in src/App.jsx that the model keeps:
- A URL with fewer than five `/`-separated segments does not cause an error.
  The breed is `undefined` (`None` here) and that breed never matches a ban.
  The dog is committed unless its size, origin or lifespan is banned.
- The HTTP status is not checked. Any JSON body whose `message` is a
  string counts as an image URL. Only a rejected request, a body that is
  not JSON, or a `message` that is not a string ends the attempt with an
  error.
- The retries reuse the ban list captured when the discovery started,
  because the recursive call runs in the same closure. `Discover` reads the
  ban list once; a ban made while a fetch is pending is covered under
  "Left out".

## Model

| member | source | states |
|---|---|---|
| Split.SplitOn | src/App.jsx:25 | the URL splits into one more piece than it has `/` characters, and no piece contains `/` |
| Split.JoinSplit | src/App.jsx:25 | joining the pieces of a split with the separator gives back the original string |
| Split.SplitJoin | src/App.jsx:25 | splitting a join of separator-free pieces gives back those pieces |
| BanList.Ban | src/App.jsx:48-52 | after a ban, the list holds exactly the old values plus `v`; earlier entries keep their positions and order; at most one entry is added; a duplicate-free list stays duplicate-free; a value already banned leaves the list unchanged |
| BanList.Unban | src/App.jsx:55-57 | after an unban, the list holds exactly the old values other than `v`, and it is not longer than the old list |
| BanList.BanIdempotent | src/App.jsx:48-52 | banning the same value twice gives the same list as banning it once |
| BanList.UnbanConcat | src/App.jsx:55-57 | unban works entry by entry over a concatenation, so the surviving entries keep their relative order |
| BanList.UnbanAbsent | src/App.jsx:55-57 | unbanning a value that is not in the list leaves the list unchanged |
| BanList.UnbanCounts | src/App.jsx:55-57 | unban removes every occurrence of `v` and keeps every other value as many times as it occurred |
| BanList.UnbanIdempotent | src/App.jsx:55-57 | unbanning twice equals unbanning once |
| BanList.UnbanNoDuplicates | src/App.jsx:55-57 | a duplicate-free ban list stays duplicate-free under unban |
| BanList.BanUnbanRoundTrip | src/App.jsx:48-57 | banning a value not yet banned, then unbanning it, restores the original list |
| DogProvider.ScaledIndex | src/App.jsx:28-30 | `Math.floor(Math.random() * n)` is a valid index, below `n` |
| DogProvider.Pick | src/App.jsx:11-30 | a generated size, origin or lifespan is a member of its fixed enumeration |
| DogProvider.Breed | src/App.jsx:25 | a breed exists exactly when the URL has at least four `/`, and the breed contains no `/` |
| DogProvider.BreedOfSegments | src/App.jsx:25 | the breed of a URL built from `/`-free segments is the fifth segment (index 4) |
| DogProvider.BreedOfImageUrl | src/App.jsx:25 | an image URL `<scheme>//<host>/breeds/<breed>/<file>` yields `<breed>`, e.g. `boxer` |
| DogProvider.Candidate | src/App.jsx:25-36 | the dog built from a draw carries the URL as its image, the breed read off it, and attributes from the enumerations |
| DogProvider.BannedIffSomeAttribute | src/App.jsx:33 | a dog is banned exactly when one of its attribute values (the breed when defined, size, origin, lifespan) is in the ban list |
| DogProvider.Try | src/App.jsx:19-41 | an attempt errors exactly when the response failed; a rejected candidate has a banned attribute; an accepted one has none |
| DogProvider.AllLifespansBannedRejects | src/App.jsx:14-33 | once all three lifespans are banned, no attempt is accepted |
| SessionState.Settle | src/App.jsx:33-41 | from attempt `i` on, a discovery ends by committing the dog of an accepted attempt or by an error at a failed attempt, never before `i` |
| SessionState.Run | src/App.jsx:18-45 | a whole discovery commits the candidate built from one supplied draw, and that candidate is not banned; an error happens at a draw whose response failed |
| SessionState.SettleStopsAt | src/App.jsx:33-41 | the retry policy stops at attempt `k` exactly when all earlier attempts were rejected and attempt `k` was not |
| SessionState.CommitsFirstAccepted | src/App.jsx:33-38 | the committed dog comes from the first candidate that is not banned, and every draw before it was rejected (both directions) |
| SessionState.ErrsAtFirstFailure | src/App.jsx:40-41 | a discovery errors at draw `k` exactly when draw `k` failed and all earlier draws were rejected |
| SessionState.ExhaustedIffAllRejected | src/App.jsx:33-34 | the retry policy runs out of attempts exactly when every remaining attempt is a rejection |
| SessionState.RetriesForeverIffAllRejected | src/App.jsx:33-34 | a discovery never stops by itself exactly when every draw gives a rejected candidate |
| SessionState.CommittedIsSafe | src/App.jsx:33-38 | a committed dog is well formed, and none of its four attributes is in the ban list the discovery started with |
| SessionState.AllLifespansBannedNeverCommits | src/App.jsx:30-34 | with every lifespan banned, no sequence of retries commits a dog |
| SessionState.BannedSizeRetried | src/App.jsx:33-38 | with "Large" banned, a "Large" candidate is discarded and the "Small" one fetched next is committed at the second attempt |
| SessionState.SkipRejected | src/App.jsx:33-34 | the retry loop stops at the first draw whose attempt is not a rejection, or after the last draw; every draw it skipped was rejected |
| SessionState.Session.constructor | src/App.jsx:5-8 | the session starts with no dog, an empty ban list, no seen dogs (and no recorded ban lists) and `loading` false |
| SessionState.Session.BanProperty | src/App.jsx:48-52 | the ban list becomes `Ban` of the old list; dog, seen dogs, loading and the recorded ban lists are unchanged; the invariant is kept |
| SessionState.Session.UnbanProperty | src/App.jsx:55-57 | the ban list becomes `Unban` of the old list; dog, seen dogs, loading and the recorded ban lists are unchanged; the invariant is kept |
| SessionState.Session.Discover | src/App.jsx:18-45 | the outcome is `Run` over the ban list at the start. A commit sets the dog and appends exactly that dog to the seen dogs. A rejection or an error leaves both unchanged. A commit records the starting ban list in the ghost history beside the dog; otherwise that history is unchanged. The ban list is unchanged, `loading` ends false, and the invariant holds: no duplicate bans, each seen dog not banned in the list its discovery started with, the current dog is the last seen one |

## Left out

- The `fetch` request and `response.json()` (network I/O) are an input: the `Response` of each draw.
- `Math.random` is a supplied real in [0, 1). IEEE double rounding of `Math.random() * n` is not modelled.
- DogProvider.ScaledIndex: proved over exact real arithmetic rather than IEEE doubles. For the lengths 3 and 4 used here, the double product of a value below 1 also stays below `n`.
- The unbounded retry is modelled over a finite sequence of draws. `Exhausted` means the draws ran out; the source would keep fetching. Termination is not claimed. `RetriesForeverIffAllRejected` states when the loop would run forever. `AllLifespansBannedNeverCommits` states that with every lifespan banned no dog is ever committed; the retries then end only at a failed fetch (`Errored`) or, in the model, when the draws run out.
- Concurrency is not modelled. The retry is an un-awaited recursive call, so `finally` clears `loading` after the first attempt while the retries go on. Overlapping discoveries can interleave their writes. The model runs one discovery to its end and then clears `loading`.
- SessionState.CommittedIsSafe and SessionState.Session.Discover: a ban made while a discovery is waiting on the network is not seen by that discovery. Only the Discover button is disabled during a fetch; the attribute chips stay clickable, and the in-flight call and its retries test the ban list their closure captured. So the source can commit a dog whose attribute was banned after the discovery started. `Discover` runs as one step, and safety is stated against the list the discovery started with.
- SessionState.Session.BanProperty accepts any string, while the source only bans the current dog's size, origin or lifespan. The ban-list invariant that every entry comes from the three enumerations is not modelled; every lemma holds for any ban list. A breed is matched at line 33 only if it equals one of those values.
- The `useEffect` auto-discovery on mount is a `Discover` call made by the caller after the constructor.
- Strings are Dafny strings, sequences of Unicode scalar values, while JavaScript strings are UTF-16 code units, so a lone surrogate cannot be represented. `split("/")` and `includes` behave the same on well-formed strings.
- Rendering, JSX and the `console.error` logging are not modelled.
