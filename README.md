# Polymorphic object persistence, modelled in Dafny

This project models the core of a small Siv3D program. The program keeps a
list of heterogeneous polymorphic objects and saves it to a single binary
snapshot. It can later restore the list from that snapshot, without knowing
the concrete type of each element in advance. The core has four parts:

- **Factory** (`registry.dfy`, module `Registry`). It maps a type id to a
  constructor of blank objects. Registering an id twice is a programming
  error. Creating an object needs its id to be registered. Every built
  object carries the id of the entry that built it.
- **Objects** (`objects.dfy`, module `Objects`). An `Object` fixes its
  `ObjectId` at construction. The two concrete classes, `EffectRed` and
  `EffectBlue`, hold `pos`, `acceleration` and `life`, which starts at 300.
  `update` moves the position by the acceleration and decreases `life` by
  one. It returns whether `life` is still positive. Both classes serialize
  `pos`, `acceleration`, `life`, in that order. They differ only in the
  colour they draw with, so one class `Effect` with a `kind` tag stands for
  both.
- **Snapshot codec** (`snapshot.dfy`, module `Snapshot`). `Encode` and
  `Decode` are the value-level layout: the element count, then for each
  element in list order its type id followed by its payload. They come with
  the round-trip, layout and rejection lemmas.
- **Object store** (`store.dfy`, module `Store`). The owned list is a class
  whose methods are the program's passes over it:
  - `Save` writes the snapshot.
  - `Load` clears the list and rebuilds it through the factory.
  - `UpdateAll` is the frame's update pass. It calls `Update` once on each
    element and erases, in place, every element whose call returned false.
    `Visit` is one iteration of that loop.

  Each method is proved against the value-level functions (`Encode`,
  `Decode`, `Survivors`). The properties are proved about those functions.

The snapshot is a sequence of abstract tokens, not bytes:
- `Word` is a `size_t`, used for the count and for type ids.
- `Vector` is a serialized `Vec2`.
- `Int` is a serialized `int`.

The error paths of loading are modelled as results:
- `TruncatedSnapshot`: the stream ends before the declared count is read.
- `UnknownTypeId`: an entry names an id the factory does not know.
- `MalformedSnapshot`: a token is not of the type the reader expects.

On any of these, the list is left empty. The source has no recovery here. It
asserts on an unknown id (`Serialization/Main.cpp:59`), and a short stream
makes the reader fail with nothing to catch it. Loading is driven by file
content, so the model reports an unknown id or a short stream as an error
and leaves the list empty. `Factory.Create` keeps the source's assertion as its precondition, and
`Load` checks the id before it calls it.

## Model

| member | source | states |
|---|---|---|
| `Objects.Effect.constructor` | Serialization/Main.cpp:110-119 | a new effect carries the given id and class, starts at the given position and velocity, and has `life == 300` |
| `Objects.Effect.Update` | Serialization/Main.cpp:121-127 | `pos` moves by `acceleration`, `acceleration` is unchanged, `life` goes down by exactly one, and the result is true iff the new `life > 0`; the same holds for the blue effect (lines 159-165) |
| `Objects.Effect.ReadState` | Serialization/Main.cpp:139-141 | reading the payload overwrites `pos`, `acceleration` and `life` with the values read, in write order, and leaves the type id and class as they were |
| `Registry.TypeIdInjective` | Serialization/Main.cpp:24-25 | the two classes get different type ids, so their registrations never collide |
| `Registry.Factory.constructor` | Serialization/Main.cpp:27-30 | a new factory has no entries, and every entry sits under its class's id |
| `Registry.Factory.Regist` | Serialization/Main.cpp:34-45 | callable only when the id is not yet registered; afterwards the id maps to the class, no earlier entry changes, and no other key appears |
| `Registry.Factory.CreateOf` | Serialization/Main.cpp:47-55 | needs the class registered; the new object is fresh, of that class, tagged with that class's id, with a blank initial state |
| `Registry.Factory.Create` | Serialization/Main.cpp:57-62 | needs the id registered; the new object is fresh, tagged with exactly the requested id, and of the class registered under it |
| `Registry.RegisterEffects` | Serialization/Main.cpp:187-189 | registering the red then the blue effect gives a factory with exactly those two entries; the second registration is allowed because the two ids differ (`TypeIdInjective`) |
| `Snapshot.EncodeSize` | Serialization/Main.cpp:72-78 | every snapshot, the empty one included, is the count token followed by four tokens per element |
| `Snapshot.EncodeLayout` | Serialization/Main.cpp:68-79 | in a snapshot of n elements the count comes first, then for the k-th element its id immediately followed by `pos`, `acceleration`, `life` (the order of lines 136-138) |
| `Snapshot.EncodeEntriesAppend` | Serialization/Main.cpp:74-78 | writing one more element appends exactly its id and payload to what was written before |
| `Snapshot.DecodeEntries` | Serialization/Main.cpp:91-101 | reading n entries that succeeds yields exactly n records and consumed 4n tokens |
| `Snapshot.Decode` | Serialization/Main.cpp:82-103 | a successful load read a count token equal to the number of records loaded, and the stream holds all of their entries |
| `Snapshot.DecodeEncodedEntries` | Serialization/Main.cpp:91-101 | the entries of registered, correctly tagged records read back as those records wherever they sit in the stream |
| `Snapshot.RoundTrip` | Serialization/Main.cpp:68-103 | when every id is registered under its own class, loading the snapshot of a list gives the same length, the same ids in the same order and the same field values |
| `Snapshot.TrailingIgnored` | Serialization/Main.cpp:88-101 | tokens after the declared number of entries do not change what is loaded |
| `Snapshot.DecodedEntriesReencode` | Serialization/Main.cpp:93-98 | every entry that was read re-encodes to the tokens it was read from, and carries a registered id with the class registered under it |
| `Snapshot.DecodeThenEncode` | Serialization/Main.cpp:82-103 | load then save: whatever loads is correctly tagged and re-saves to exactly the part of the stream that was read |
| `Snapshot.ResaveIdentical` | Serialization/Main.cpp:68-79 | saving, loading and saving again writes the same snapshot twice |
| `Snapshot.UnknownIdRejected` | Serialization/Main.cpp:93-96 | a snapshot whose k-th id is unregistered (and earlier ids are fine) fails to load with `UnknownTypeId` naming that id |
| `Snapshot.TruncatedEntries` | Serialization/Main.cpp:91-101 | entries cut short anywhere fail with `TruncatedSnapshot` |
| `Snapshot.TruncationRejected` | Serialization/Main.cpp:88-101 | a snapshot of a correctly tagged list cut short at any point fails to load with `TruncatedSnapshot` |
| `Snapshot.TwoEffectsScenario` | Serialization/Main.cpp:136-141 | one red effect ((1,1), (0,1), 10) and one blue effect ((5,5), (1,0), 3) come back from a save and a load with the same ids, order and fields |
| `Store.ObjectStore.constructor` | Serialization/Main.cpp:185 | the object list starts empty |
| `Store.ObjectStore.Spawn` | Serialization/Main.cpp:199-202 | appending a factory-built object adds exactly one blank element of the requested class at the end, and keeps the list correctly tagged |
| `Store.ObjectStore.Save` | Serialization/Main.cpp:68-79 | the tokens written are the snapshot `Encode` of the list's current values |
| `Store.ObjectStore.Load` | Serialization/Main.cpp:82-103 | prior contents are discarded; on success the list equals what `Decode` reads from the stream, its length is the count read, the elements are fresh objects in read order and correctly tagged; on failure the list is empty and the error is the one `Decode` reports |
| `Store.ObjectStore.UpdateAll` | Serialization/Main.cpp:208-218 | every element of the old list has been updated exactly once; the list now holds exactly the survivors, in their original relative order (`Survivors`); it is no longer than before, still has no repeats, and holds only objects of the old list (erased around in place, never copied) |
| `Store.ObjectStore.Visit` | Serialization/Main.cpp:210-217 | one iteration: the element at the cursor is stepped once; when its update returns false it is erased and the elements before and after it keep their places, otherwise the list is unchanged; the list keeps no repeats |
| `Store.ObjectStore.SaveAndReload` | Serialization/Main.cpp:240-247 | saving and then loading with the factory that built the objects leaves the list's values unchanged |
| `Store.SurvivorsAppend` | Serialization/Main.cpp:208-218 | the pass works element by element: the survivors of a concatenation are the survivors of each part, in order |
| `Store.SurvivorsSnoc` | Serialization/Main.cpp:210-217 | one more element adds its stepped value exactly when that value is still alive |
| `Store.SurvivorsMember` | Serialization/Main.cpp:210-217 | a value is kept iff it is the stepped value of some element and is alive (both directions) |
| `Store.SurvivorsBounds` | Serialization/Main.cpp:208-218 | the pass never lengthens the list, and every kept element has `life > 0` |
| `Store.SurvivorsKeepTags` | Serialization/Main.cpp:11-13 | the pass never changes an element's type id or class, so a correctly tagged list stays so |
| `Store.DistinctErase` | Serialization/Main.cpp:216 | erasing one element from a list without repeats leaves a list without repeats |

## Left out

- Drawing (`draw`, `Circle`, `Palette`), fonts and `Print`: side-effecting UI calls with no result to model.
- The debug dump of the random generator's internal state (lines 223-238): foreign library internals.
- The random spawning policy (`Random(6)`) and the engine calls `Scene::CenterF` and `RandomVec2`. They become the `center` and `velocity` parameters of the constructor, the factory methods, `Spawn` and `Load`.
- File I/O through the binary serializer, including byte widths and endianness. The snapshot is a token sequence. Tokens carry a type, so a misplaced value is reported as `MalformedSnapshot`; the byte stream would reinterpret it silently.
- Objects.Effect.Update: `Vec2` arithmetic is exact real arithmetic; floating-point rounding in `pos += acceleration` is not modelled.
- Objects.Effect.Update: `life` is an unbounded integer; the 32-bit `int` underflow below `INT_MIN` (undefined behaviour in C++) is not modelled.
- Counts and type ids are unbounded naturals, not 64-bit `size_t`.
- `typeid(Class).hash_code()` is replaced by a fixed, distinct id per class (`TypeId`), since the hash is a compiler facility.
- The outer `System::Update()` frame loop and the key triggers: `SaveAndReload` stands for one save and the load after it.
- Virtual dispatch: the two concrete classes become one class with a `kind` tag. Their update and serialization are identical, so one definition covers both.
- Store.ObjectStore.Load: an unknown id or a short stream gives an error and an empty list, where the source aborts (assertion or unhandled reader failure).
