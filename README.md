# ArmaRadio source registry, modelled in Dafny

ArmaRadio is an Arma 3 extension that plays positional sounds through OpenAL.
Its state is a table from caller-chosen string ids to live sound sources,
guarded by one mutex, and a single timestamp of the host's last sign of
life. The host creates, moves, re-gains, lists and destroys sources by id. A
background timer wakes every second, and if more than three seconds have
passed since the last `start` or `heartbeat` it removes every source. If the clock ever reads earlier than the
timestamp, the timer thread panics and no source is expired again until `start` is called again.

The model follows `extension/src/lib.rs`:

- `wrappers.dfy`: module `Wrappers`, the `Option` datatype.
- `listing.dfy`: module `Listing`. This is the text form `[id1,id2,...]` that
  `list` returns (`Render`). Next to it is a reader for that form
  (`ParseList`, built on `Split`), and the proof that a listing of non-empty,
  comma-free ids reads back as exactly those ids.
- `ident.dfy`: module `Ident`. This is the `id` generator: the first eight
  characters of an alphanumeric sample, lower-cased.
- `radio.dfy`: module `Radio`. Class `Registry` holds the table (`sources`,
  a `map`) and the timestamp (`timestamp`, an `Option<nat>`), plus an
  `armed` flag for "a timer exists". `create`, `destroy`, `pos`, `gain`,
  `start` and `heartbeat` are methods that change these fields in place.
  `list` collects the keys in the table's unspecified order (`KeyList`) and
  renders them. `Tick(now)` is one iteration of the timer loop: it removes
  the collected keys one at a time in a `for` loop. Four client methods use
  only the contracts: `Session` runs a host session, `DestroyTwice`
  destroys one id twice, `Expiry` runs a silence scenario and `StaleClock`
  shows a tick whose clock reads earlier than the last heartbeat.

Sound sources are values: `SoundSource(payload, position, gain)`. The host's
`f32` arguments are only stored, so they are written as `real`. Time is a
natural number of seconds passed into `Start`, `Heartbeat` and `Tick`.

The listing is not injective. A table holding only the id `""` lists as
`[]`, just as the empty table does, and one id `a,b` lists the same as the
two ids `a` and `b` (`RenderAmbiguous`). The read-back property therefore
assumes the ids are non-empty and comma-free (`Listable`).

## Model

| member | source | states |
|---|---|---|
| Listing.ParseRender | extension/src/lib.rs:117-125 | a listing of non-empty, comma-free ids reads back as exactly those ids in the same order; the empty table lists as `[]` |
| Listing.SplitJoin | extension/src/lib.rs:124 | splitting the comma-join of a non-empty list of comma-free ids on `,` gives the list back |
| Listing.RenderAmbiguous | extension/src/lib.rs:124 | without that restriction, different id lists can give the same listing (`[]` for no ids and for the id `""`; `a,b` versus `a` and `b`) |
| Ident.ToLower | extension/src/lib.rs:78 | an alphanumeric character lower-cases to a lower-case letter or digit; upper-case letters map to the matching lower-case letter and nothing else changes |
| Ident.Lowercase | extension/src/lib.rs:78 | lower-casing keeps the length and lower-cases each character at its own position |
| Ident.Id | extension/src/lib.rs:72-79 | an id is 8 characters long, every one in `[a-z0-9]`, and the i-th is the lower-cased i-th character of the alphanumeric sample |
| Ident.IdCaseInsensitive | extension/src/lib.rs:73-78 | two samples give the same id if and only if their first eight characters agree up to case |
| Radio.EnumerationSize | extension/src/lib.rs:55-58 | a key snapshot that lists every key once has exactly as many entries as the table has keys |
| Radio.EnumerationOfOne | extension/src/lib.rs:121-124 | a table with one id has exactly one possible key snapshot: that id alone |
| Radio.Registry.constructor | extension/src/lib.rs:32-40 | the extension starts with an empty table, no timestamp and no timer |
| Radio.Registry.Start | extension/src/lib.rs:46-49 | `start` sets the timestamp to now and arms the timer; the table is unchanged |
| Radio.Registry.Heartbeat | extension/src/lib.rs:67-70 | `heartbeat` sets the timestamp to now; the table and the armed flag are unchanged |
| Radio.Registry.Create | extension/src/lib.rs:81-88 | `create` returns `sid` unchanged and maps `sid` to a new source from `payload`, silently replacing any earlier one (then the key set is unchanged); every other entry is unchanged |
| Radio.Registry.Destroy | extension/src/lib.rs:90-93 | `destroy` returns true exactly when `sid` was present; afterwards `sid` is absent and every other entry is unchanged; a miss changes nothing |
| Radio.Registry.Pos | extension/src/lib.rs:95-100 | `pos` sets only that entry's position to `(x, y, z)` when `sid` is present and changes nothing otherwise; it never adds or removes keys or touches a gain or payload |
| Radio.Registry.Gain | extension/src/lib.rs:102-107 | `gain` sets only that entry's gain when `sid` is present and changes nothing otherwise; it never adds or removes keys or touches a position or payload |
| Radio.Registry.KeyList | extension/src/lib.rs:118-123 | the collected keys are exactly the table's keys, each exactly once |
| Radio.Registry.List | extension/src/lib.rs:116-125 | `list` is the rendering of a snapshot that holds every key exactly once; the empty table gives `[]`; with listable ids the listing reads back as that snapshot |
| Radio.Registry.Tick | extension/src/lib.rs:50-62 | when more than 3 seconds have passed since the last heartbeat the table ends empty; with 3 seconds or less, including exactly 3, it is unchanged; an empty table stays empty; a clock earlier than the timestamp panics: the table and timestamp are unchanged and the timer is gone, so no later tick runs until `start` arms a new timer |
| Radio.DestroyTwice | extension/src/lib.rs:91-92 | destroying an id twice in a row: the first call reports whether it was present, the second returns false, and only that id is gone |
| Radio.Session | extension/src/lib.rs:81-125 | start, then `create("a.ogg","s1")` gives `"s1"`; after `pos` and `gain`, `list` gives `[s1]`; `destroy("s1")` gives true; `list` then gives `[]` |
| Radio.StaleClock | extension/src/lib.rs:49-53 | a heartbeat at 5 s followed by a tick whose clock reads 4 s panics; the timer is gone and the source is still listed as `[s1]` |
| Radio.Expiry | extension/src/lib.rs:47-70 | a tick exactly 3 s after the last heartbeat keeps the sources, a heartbeat postpones expiry, and the first tick past 3 s clears the table so that `list` gives `[]` |

## Left out

- Loading OpenAL and writing the embedded `OpenAL32.dll` to disk (lib.rs:19-31, 42-44) is file I/O and a foreign library.
- The OpenAL device and context, the `orientation` operation and the `init` handler (lib.rs:33-37, 110-114, 127-137) are not modelled. They only pass float listener settings to OpenAL and hold no logic.
- `extension/src/source.rs` (the `SoundSource` type) is not part of this model. A source is a value of payload, position and gain. Its playback handle is not modelled, so the playback resources that an overwrite or removal releases are not tracked. A new source is taken to start at the origin at gain 1, which are OpenAL's defaults.
- Threads, sleeping and the wall clock (lib.rs:40, 49, 63) are not modelled. The timer is one `Tick(now)` step called with the current time. The unsynchronised `static mut` timestamp race is not captured as interleaving. Its one visible effect is a heartbeat written between the timer's clock read and its timestamp read. That effect is modelled as `Heartbeat(t2)` followed by `Tick(t1)` with `t1 < t2`, which panics and ends the timer (`StaleClock`).
- Calling `start` a second time spawns a second timer. The model has one `armed` flag and does not count timers.
- Mutex locking and poisoning (lib.rs:32, 54, 84-85) are not modelled. Every operation is atomic.
- The random sampler behind `id` is a parameter, `sample`: a sequence of at least eight alphanumeric characters.
- The `#[rv]` / `#[rv_handler]` marshalling across the host boundary is not modelled.
- Radio.Registry.Tick: elapsed time is whole seconds, so a gap of 3.5 s (longer than 3 s at `Duration` precision) is not representable. A `None` timestamp cannot occur while a timer exists, so that `unwrap` panic is ruled out by `Valid()` rather than modelled.
- Float inputs are `real`. NaN and infinities cannot be represented, but the registry stores these values and never compares them.
