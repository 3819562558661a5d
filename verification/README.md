# tide-websockets-ext: the connection registry, modelled in Dafny

`tide-websockets-ext` gives a tide server one shared registry of live
websocket connections. `WebSocketState` maps each `WebSocketHandle` to a
`WebSocketConnection`. A handle is a newtype over the text of a random UUID.
`insert` mints a new handle, stores the connection under it and returns
the handle. `send_all_string` is meant to broadcast, but as written it
returns `Ok(())` and does nothing else. Every failure is a
`WebSocketStateError`. It has four variants, each naming the handle it
concerns, and each has a fixed display format.

The project has three modules:

- `Handles` (`handle.dfy`): the handle datatype and its derived equality
  and ordering. Handles compare as their strings do. The derived order is
  proved to be a strict total order, so handles can key an ordered map.
- `Errors` (`error.dfy`): `WebSocketStateError` and its `source`,
  `Display` and the three `From` conversions. The foreign error types
  (`tide_websockets::Error`, `http_types::Error`, `TimeoutError`) are
  abstract types. Their display text is passed to `Display` as functions,
  and so is the handle's rendering, since the crate gives the handle no
  `Display` impl.
  All four variants share the destructor `handle`, so "the handle an
  error is about" is total.
- `WebSocketStates` (`websocket_state.dfy`): the class `WebSocketState`.
  Its field `entries: map<Handle, Connection>` is the `BTreeMap` the source
  keeps behind `Arc<RwLock<…>>`.
  - A `Clone` of the state is the same object, so an insert through one
    reference is seen through every other.
  - The random generator is the constant `rng: nat -> Handle`, the stream
    of handles it will yield. The counter `draws` says how many have been
    taken.
  - `insert` takes the next one; callers never supply it. The code never
    checks for a collision. A repeated handle overwrites the old entry, as
    `BTreeMap::insert` does.
  - UUID uniqueness is the predicate `Injective(rng)`, not a precondition.
    While it holds, `Valid()` guarantees that no insert overwrites another
    and the map holds exactly one entry per insert.

## Model

| member | source | states |
|---|---|---|
| `Handles.CompareText` | src/websocket_state.rs:9-10 | the derived string comparison reports `Equal` exactly when the two strings are equal |
| `Handles.Compare` | src/websocket_state.rs:9-10 | two handles compare `Equal` iff they are the same handle iff their strings are equal |
| `Handles.CompareTextFlip` | src/websocket_state.rs:9-10 | comparing `t` with `s` gives the flipped result of comparing `s` with `t` (antisymmetry), by induction on the strings |
| `Handles.CompareTextTransitive` | src/websocket_state.rs:9-10 | the string order is transitive, by induction on the strings |
| `Handles.ProperPrefixFirst` | src/websocket_state.rs:9-10 | the string order is lexicographic: a proper prefix sorts before the longer string |
| `Handles.FirstDifferenceDecides` | src/websocket_state.rs:9-10 | the string order is lexicographic: after a common prefix, the first differing character decides the comparison |
| `Handles.Trichotomy` | src/websocket_state.rs:9-10 | for any two handles exactly one of `a < b`, `a == b`, `b < a` holds, `<` is irreflexive, and swapping the handles flips the comparison |
| `Handles.BeforeTransitive` | src/websocket_state.rs:9-10 | the handle order is transitive, so with `Trichotomy` it is a strict total order usable as a map key order |
| `Errors.Source` | src/error.rs:19-26 | a cause is reported exactly for the websocket variant, and it is that variant's websocket error; the other three variants report none |
| `Errors.Display` | src/error.rs:29-38 | every rendering ends with the handle's rendering; the text before it is `"Timeout "`, `"No such websocket handle: "` or the foreign error's text followed by `": websocket client "`, according to the variant, and nothing else |
| `Errors.DisplayAttributesHandle` | src/error.rs:31-36 | two errors of the same variant about the same foreign error that render to the same text have handles that render alike |
| `Errors.TransportKindsRenderAlike` | src/error.rs:33-34 | the websocket and HTTP variants share one format: when their foreign errors render alike, so do the two errors |
| `Errors.FromWsError` | src/error.rs:43-47 | converting `(e, h)` from a websocket error gives the websocket variant holding `e` and `h` |
| `Errors.FromHttpError` | src/error.rs:49-53 | converting `(e, h)` from an HTTP error gives the HTTP variant holding `e` and `h` |
| `Errors.FromTimeout` | src/error.rs:55-59 | converting `(t, h)` from a timeout gives the timeout variant holding `h` |
| `Errors.ConversionSources` | src/error.rs:19-59 | the converted websocket error comes back as the cause; converted HTTP and timeout errors have no cause |
| `Errors.TimeoutValueDiscarded` | src/error.rs:55-59 | the timeout conversion does not depend on the timeout value, only on the handle |
| `WebSocketStates.Inserted` | src/websocket_state.rs:34 | the map after `BTreeMap::insert` has the old keys plus the new one, maps the new key to the new connection and keeps every other entry |
| `WebSocketStates.InsertedFreshGrows` | src/websocket_state.rs:33-34 | inserting under an absent handle grows the map by exactly one |
| `WebSocketStates.InsertedCollisionReplaces` | src/websocket_state.rs:14-34 | inserting under a present handle keeps the size and the key set (the old connection is replaced) |
| `WebSocketStates.WebSocketState.Default` | src/websocket_state.rs:21-25 | a default state has an empty map, has drawn no handle and is valid |
| `WebSocketStates.WebSocketState.New` | src/websocket_state.rs:28-30 | `new` returns a fresh state with an empty map |
| `WebSocketStates.WebSocketState.Clone` | src/websocket_state.rs:18-19 | a clone is the same shared state |
| `WebSocketStates.WebSocketState.Insert` | src/websocket_state.rs:32-36 | returns the next handle of the generator, not one the caller supplies; afterwards that handle maps to `conn` and every other entry is unchanged; the size is unchanged on a collision and one larger otherwise; if the generator never repeats, no collision happens and there is one entry per insert (`Valid`) |
| `WebSocketStates.WebSocketState.SendAllString` | src/websocket_state.rs:38-46 | returns `Ok(())` for every handle, message and timeout, and changes nothing |
| `WebSocketStates.InsertThroughClone` | src/websocket_state.rs:18-19 | a connection inserted through a clone is found through the original under the returned handle, and the original's map is the old map with that one insert |

## Left out

- The `RwLock` and `async`/`.await`: each operation runs atomically and in sequence, so concurrent interleavings are not modelled.
- UUID v4 generation: the generator is the stream `rng`, given to the constructor, and its uniqueness is the stated assumption `Injective(rng)`.
- `std::time::Duration` is a count of nanoseconds. No timeout is raced, because `send_all_string` in src/websocket_state.rs does not send.
- The internals of `WebSocketConnection`, `tide_websockets::Error`, `http_types::Error` and `TimeoutError` are abstract types. The text of the two displayable foreign errors is a function argument of `Display`.
- `delete` and a two-argument `send_all_string` are called by `examples/echo_server.rs` but defined nowhere in `src/`. They are not modelled.
- Removal, unicast sends and per-recipient broadcast results are not defined in src/websocket_state.rs, so they are not modelled.
- The echo server's routing, websocket upgrade and networking are I/O and are not modelled.
- `src/lib.rs` holds only module declarations and re-exports.
- The derived `Debug` output is not modelled.
- Errors.Display: `WebSocketHandle` has no `Display` impl in the crate. src/websocket_state.rs:9 derives only `Debug`, `Clone` and the comparison traits, so the `{}` of a handle at src/error.rs:32-35 has no definition here. The handle's rendering is therefore the parameter `handleText`. The model does not fix it to be the wrapped UUID string.
- The iteration order of the `BTreeMap` is not modelled, because no operation in src/websocket_state.rs iterates the map.
