# SDL2 event-union dispatch and ContiguousArrayList, modelled in Dafny

This project models the two pieces of the ControllableSDL JNA binding to SDL2
that hold decision logic:

* **`SDL_Event.read()`**, in both of its versions (the newer
  `com.mrcrayfish.controllable_sdl` one and the older `org.libsdl` one). An
  `SDL_Event` is a union over one block of native memory. `read()` reads the
  leading 32-bit `type` field, maps it through a `switch` to exactly one union
  member (payload layout), and makes that member the active one. The switch
  is modelled as a pure function `Dispatch(t: int): Layout`. `read()` is a
  method on a class `Event` whose memory is an `array<byte>` that `Read()`
  never writes. The fields `typ` and `active` are set from that memory. Each
  version also has a reference table `Codes(l)`: the case labels that select
  member `l`. Lemmas connect the two in both directions (`DispatchMatchesTable`
  is the if-and-only-if), and a separate module compares the two versions.
* **`ContiguousArrayList<T>`** (`org.libsdl.jna`): a fixed-length, non-empty,
  structurally immutable `java.util.List` over an array. It is a class over an
  `array<Option<T>>`; Java's `null` is `None` and `equals` is Dafny equality.
  The queries are specified against the array's contents `Elements()`.
  `indexOf` is proved equal to the recursive reference function
  `FirstIndex`, and `contains` and `containsAll` go through it. `forEach` is
  proved equal to `FoldLeft`. `lastIndexOf` is proved equal to
  `LastIndexAsWritten`, which is the recursive `LastIndex` except for a null
  argument. `isEmpty` is proved always false for a valid list. The refused mutators always throw `UnsupportedOperation`. The
  iterators `Itr` and `ListItr` are classes with a mutable `cursor` and
  `lastRet`.

The Java exceptions are `Result`/`Outcome` values (module `Wrappers`). The
event-type codes are the values of SDL2's `SDL_EventType` enumeration in the
public header `SDL_events.h`. The Java class that declares them is not part
of this model. Every listed code is below `SDL_USEREVENT` (0x8000), and
`SDL_LASTEVENT` is 0xFFFF.

The newer switch lists LOCALECHANGED, RENDER_TARGETS_RESET, RENDER_DEVICE_RESET,
CLIPBOARDUPDATE and KEYMAPCHANGED under Common. The older switch lists
CLIPBOARDUPDATE and both render-reset codes under Common, and sends the other
two to Common through its default branch.

Files: `wrappers.dfy`, `wire.dfy` (4-byte `int` decode/encode),
`sdl_event_type.dfy` (codes and `Layout`), `controllable_sdl_event.dfy`,
`libsdl_event.dfy`, `dispatch_comparison.dfy`, `contiguous_array_list.dfy`.

## Model

| member | source | states |
|---|---|---|
| `Wire.DecodeEncode` | src/main/java/com/mrcrayfish/controllable_sdl/api/event/SDL_Event.java:206 | the `type` field decoded from the four bytes native code wrote for an `int` is that `int`, in either byte order |
| `Wire.EncodeDecode` | src/main/java/org/libsdl/api/event/SDL_Event.java:114 | every 4-byte pattern is the encoding of the `int` read from it, so the read loses nothing |
| `Wire.DecodeInjective` | src/main/java/org/libsdl/api/event/SDL_Event.java:114 | two different 4-byte `type` fields never read as the same code |
| `SdlEventType.Fallback` | src/main/java/com/mrcrayfish/controllable_sdl/api/event/SDL_Event.java:315-321 | the default branch: User exactly for codes in [SDL_USEREVENT, SDL_LASTEVENT), Common exactly for all others |
| `ControllableSdlEvent.Dispatch` | src/main/java/com/mrcrayfish/controllable_sdl/api/event/SDL_Event.java:207-321 | total over all `int` codes; every code in the user range selects User and only such codes do |
| `ControllableSdlEvent.ListedCodeSelects` | src/main/java/com/mrcrayfish/controllable_sdl/api/event/SDL_Event.java:207-314 | a code listed under the case for member `l` selects `l` |
| `ControllableSdlEvent.ListedCodesCoverCases` | src/main/java/com/mrcrayfish/controllable_sdl/api/event/SDL_Event.java:207-314 | every case label is among the listed codes that bypass the default branch |
| `ControllableSdlEvent.UnlistedCodeFallsBack` | src/main/java/com/mrcrayfish/controllable_sdl/api/event/SDL_Event.java:315-321 | a code no case lists selects User in the user range and Common elsewhere; there is no error path |
| `ControllableSdlEvent.CaseOrFallback` | src/main/java/com/mrcrayfish/controllable_sdl/api/event/SDL_Event.java:207-321 | every code selects either a member whose case lists it or the default branch's member |
| `ControllableSdlEvent.ListedCodeInTable` | src/main/java/com/mrcrayfish/controllable_sdl/api/event/SDL_Event.java:207-314 | every case label selects the member of the case that lists it, so no listed code is missing from the table |
| `ControllableSdlEvent.DispatchMatchesTable` | src/main/java/com/mrcrayfish/controllable_sdl/api/event/SDL_Event.java:207-321 | `t` selects `l` if and only if `l`'s case lists `t`, or no case lists `t` and `l` is its default-branch member |
| `ControllableSdlEvent.SameCaseSameLayout` | src/main/java/com/mrcrayfish/controllable_sdl/api/event/SDL_Event.java:227-306 | codes listed under one case share a member: KEYDOWN/KEYUP go to Keyboard, the device, touchpad, finger, gesture, drop and audio groups likewise |
| `ControllableSdlEvent.CasesDisjoint` | src/main/java/com/mrcrayfish/controllable_sdl/api/event/SDL_Event.java:207-314 | no code is listed under two cases, so the mapping is many-to-one |
| `ControllableSdlEvent.NotificationsSelectCommon` | src/main/java/com/mrcrayfish/controllable_sdl/api/event/SDL_Event.java:208-223 | LOCALECHANGED, both render resets, CLIPBOARDUPDATE and KEYMAPCHANGED select Common; QUIT selects Quit and WINDOWEVENT Window |
| `ControllableSdlEvent.OutOfRangeSelectsCommon` | src/main/java/com/mrcrayfish/controllable_sdl/api/event/SDL_Event.java:318-320 | negative codes and codes at or above SDL_LASTEVENT select Common |
| `ControllableSdlEvent.PayloadDoesNotSelect` | src/main/java/com/mrcrayfish/controllable_sdl/api/event/SDL_Event.java:205-207 | two records with the same `type` bytes select the same member, whatever their payload bytes |
| `ControllableSdlEvent.Event.constructor` | src/main/java/com/mrcrayfish/controllable_sdl/api/event/SDL_Event.java:197-202 | a new union over native memory has `type` 0 and no active member |
| `ControllableSdlEvent.Event.Read` | src/main/java/com/mrcrayfish/controllable_sdl/api/event/SDL_Event.java:205-324 | `type` is read from the first four bytes and the active member is `Dispatch(type)`; the memory is not written, and a second read changes nothing |
| `LibsdlEvent.Dispatch` | src/main/java/org/libsdl/api/event/SDL_Event.java:115-208 | total; never selects a member this union lacks (Display, TextEditingExt, JoyBattery, ControllerTouchpad, ControllerSensor, Sensor); User exactly for the user range |
| `LibsdlEvent.ListedCodeSelects` | src/main/java/org/libsdl/api/event/SDL_Event.java:115-201 | a code listed under the case for member `l` selects `l` |
| `LibsdlEvent.ListedCodesCoverCases` | src/main/java/org/libsdl/api/event/SDL_Event.java:115-201 | every case label is among the listed codes that bypass the default branch |
| `LibsdlEvent.UnlistedCodeFallsBack` | src/main/java/org/libsdl/api/event/SDL_Event.java:202-208 | a code no case lists selects User in the user range and Common elsewhere |
| `LibsdlEvent.CaseOrFallback` | src/main/java/org/libsdl/api/event/SDL_Event.java:115-208 | every code selects either a member whose case lists it or the default branch's member |
| `LibsdlEvent.ListedCodeInTable` | src/main/java/org/libsdl/api/event/SDL_Event.java:115-201 | every case label selects the member of the case that lists it, so no listed code is missing from the table |
| `LibsdlEvent.DispatchMatchesTable` | src/main/java/org/libsdl/api/event/SDL_Event.java:115-208 | `t` selects `l` if and only if `l`'s case lists `t`, or no case lists `t` and `l` is its default-branch member |
| `LibsdlEvent.SameCaseSameLayout` | src/main/java/org/libsdl/api/event/SDL_Event.java:125-193 | codes listed under one case share a member, as in the newer switch |
| `LibsdlEvent.CasesDisjoint` | src/main/java/org/libsdl/api/event/SDL_Event.java:115-201 | no code is listed under two cases |
| `LibsdlEvent.UnpairedAndNotificationCodes` | src/main/java/org/libsdl/api/event/SDL_Event.java:158-207 | only JOYDEVICEADDED selects JoyDevice; JOYDEVICEREMOVED falls to Common; CLIPBOARDUPDATE and both render resets select Common |
| `LibsdlEvent.OutOfRangeSelectsCommon` | src/main/java/org/libsdl/api/event/SDL_Event.java:205-207 | negative codes and codes at or above SDL_LASTEVENT select Common |
| `LibsdlEvent.PayloadDoesNotSelect` | src/main/java/org/libsdl/api/event/SDL_Event.java:113-115 | the member depends on the `type` bytes only |
| `LibsdlEvent.Event.constructor` | src/main/java/org/libsdl/api/event/SDL_Event.java:83-85 | a new union has `type` 0 and no active member |
| `LibsdlEvent.Event.Read` | src/main/java/org/libsdl/api/event/SDL_Event.java:111-211 | `type` is assigned the `int` read at offset 0 before the member `Dispatch(type)` is selected; memory untouched; idempotent |
| `DispatchComparison.DisagreeExactlyOnNewerCodes` | src/main/java/org/libsdl/api/event/SDL_Event.java:115-208 | the two dispatchers disagree exactly on DISPLAYEVENT, TEXTEDITING_EXT, JOYDEVICEREMOVED, JOYBATTERYUPDATED, the three touchpad codes, CONTROLLERSENSORUPDATE and SENSORUPDATE |
| `DispatchComparison.OlderFallsBackToCommon` | src/main/java/org/libsdl/api/event/SDL_Event.java:202-207 | wherever they disagree, the older dispatcher selected Common |
| `ContiguousList.FirstIndex` | src/main/java/org/libsdl/jna/ContiguousArrayList.java:213-225 | reference: -1 exactly when the value is absent, else a position holding it with none before it |
| `ContiguousList.LastIndex` | src/main/java/org/libsdl/jna/ContiguousArrayList.java:228-237 | reference (corrected for null): -1 exactly when the value is absent, else a position holding it with none after it |
| `ContiguousList.FirstLastBracket` | src/main/java/org/libsdl/jna/ContiguousArrayList.java:213-237 | every position of a value lies between its first and its last position |
| `ContiguousList.LastIndexOfNullMissesNull` | src/main/java/org/libsdl/jna/ContiguousArrayList.java:228-230 | with a null slot present, `indexOf(null)` and the last null position are at least 0, yet `lastIndexOf(null)` is -1 |
| `ContiguousList.Allocate` | src/main/java/org/libsdl/jna/ContiguousArrayList.java:57-64 | a size below 1 throws IllegalArgument; otherwise a fresh valid list of `size` new structures |
| `ContiguousList.FromArray` | src/main/java/org/libsdl/jna/ContiguousArrayList.java:78-83 | an empty array throws IllegalArgument; otherwise the list wraps the caller's array itself |
| `ContiguousList.ContiguousArrayList.Wrap` | src/main/java/org/libsdl/jna/ContiguousArrayList.java:78-83 | the list established by a successful wrap is valid (length at least 1) and aliases the array |
| `ContiguousList.ContiguousArrayList.Size` | src/main/java/org/libsdl/jna/ContiguousArrayList.java:104-106 | the number of elements, at least 1 and at most Integer.MAX_VALUE |
| `ContiguousList.ContiguousArrayList.IsEmpty` | src/main/java/org/libsdl/jna/ContiguousArrayList.java:108-111 | always false |
| `ContiguousList.ContiguousArrayList.Get` | src/main/java/org/libsdl/jna/ContiguousArrayList.java:85-88 | the i-th element exactly for 0 <= i < size, IndexOutOfBounds otherwise |
| `ContiguousList.ContiguousArrayList.IndexOf` | src/main/java/org/libsdl/jna/ContiguousArrayList.java:212-225 | equals `FirstIndex`: the smallest position holding `o` (the first null slot for null), or -1 |
| `ContiguousList.ContiguousArrayList.Contains` | src/main/java/org/libsdl/jna/ContiguousArrayList.java:113-116 | true exactly when some slot holds `o` |
| `ContiguousList.ContiguousArrayList.LastIndexOf` | src/main/java/org/libsdl/jna/ContiguousArrayList.java:227-237 | -1 for null; for non-null `o`, -1 exactly when absent, else the largest position holding it |
| `ContiguousList.ContiguousArrayList.ContainsAll` | src/main/java/org/libsdl/jna/ContiguousArrayList.java:164-170 | true exactly when every element of `c` is contained |
| `ContiguousList.ContiguousArrayList.ToArray` | src/main/java/org/libsdl/jna/ContiguousArrayList.java:123-126 | a fresh array holding the elements in order |
| `ContiguousList.ContiguousArrayList.ToArrayInto` | src/main/java/org/libsdl/jna/ContiguousArrayList.java:128-139 | a too-short `a` is left alone and a fresh copy returned; otherwise `a` itself, holding the elements in front, null just after them, the rest unchanged |
| `ContiguousList.ContiguousArrayList.ForEach` | src/main/java/org/libsdl/jna/ContiguousArrayList.java:146-152 | the consumer accepts each element once, in order |
| `ContiguousList.ContiguousArrayList.Mutate` | src/main/java/org/libsdl/jna/ContiguousArrayList.java:154-210 | `add`, `remove`, `addAll`, `removeAll`, `retainAll`, `clear`, `set`, indexed `add`/`remove` and `subList` throw UnsupportedOperation and leave the contents unchanged |
| `ContiguousList.ContiguousArrayList.Iterator` | src/main/java/org/libsdl/jna/ContiguousArrayList.java:118-121 | a fresh forward iterator with cursor 0 and lastRet -1 |
| `ContiguousList.ContiguousArrayList.ListIterator` | src/main/java/org/libsdl/jna/ContiguousArrayList.java:239-247 | a fresh list iterator whose cursor is the unchecked `index` |
| `ContiguousList.Itr.constructor` | src/main/java/org/libsdl/jna/ContiguousArrayList.java:254-265 | cursor 0, lastRet -1 |
| `ContiguousList.Itr.HasNext` | src/main/java/org/libsdl/jna/ContiguousArrayList.java:267-269 | cursor differs from size; for a forward iterator, exactly when `get(cursor)` succeeds |
| `ContiguousList.Itr.Next` | src/main/java/org/libsdl/jna/ContiguousArrayList.java:271-281 | returns the element at the cursor, sets lastRet to the old cursor and advances; past the end throws NoSuchElement and changes nothing |
| `ContiguousList.Itr.Remove` | src/main/java/org/libsdl/jna/ContiguousArrayList.java:283-285 | throws UnsupportedOperation |
| `ContiguousList.ListItr.constructor` | src/main/java/org/libsdl/jna/ContiguousArrayList.java:289-291 | cursor is `index`, lastRet -1 |
| `ContiguousList.ListItr.HasNext` | src/main/java/org/libsdl/jna/ContiguousArrayList.java:267-269 | cursor differs from size; with the cursor in [0, size], exactly when `get(cursor)` succeeds |
| `ContiguousList.ListItr.Next` | src/main/java/org/libsdl/jna/ContiguousArrayList.java:271-281 | as `Itr.Next`, for any starting cursor |
| `ContiguousList.ListItr.HasPrevious` | src/main/java/org/libsdl/jna/ContiguousArrayList.java:293-295 | cursor differs from 0; with the cursor in [0, size], exactly when `get(cursor - 1)` succeeds |
| `ContiguousList.ListItr.Previous` | src/main/java/org/libsdl/jna/ContiguousArrayList.java:297-306 | moves the cursor one back and returns the element there, lastRet being that index; before the start throws NoSuchElement and changes nothing |
| `ContiguousList.ListItr.NextIndex` | src/main/java/org/libsdl/jna/ContiguousArrayList.java:308-310 | the cursor |
| `ContiguousList.ListItr.PreviousIndex` | src/main/java/org/libsdl/jna/ContiguousArrayList.java:312-314 | the cursor minus 1 in 32-bit arithmetic (Integer.MIN_VALUE wraps to Integer.MAX_VALUE) |
| `ContiguousList.ListItr.Mutate` | src/main/java/org/libsdl/jna/ContiguousArrayList.java:316-322 | `set` and `add` (and the inherited `remove`) throw UnsupportedOperation |
| `ContiguousList.ListItr.NextThenPrevious` | src/main/java/org/libsdl/jna/ContiguousArrayList.java:271-306 | `previous()` undoes `next()`: both return the same element and the cursor is back where it was |
| `ContiguousList.CollectForward` | src/main/java/org/libsdl/jna/ContiguousArrayList.java:254-281 | iterating with `hasNext()`/`next()` yields exactly the elements, in order |
| `ContiguousList.CollectBackward` | src/main/java/org/libsdl/jna/ContiguousArrayList.java:288-306 | iterating with `hasPrevious()`/`previous()` from `listIterator(size())` yields the elements in reverse order |

## Left out

- Payload decoding: `setType` selects the active member and `super.read()` fills its fields from the same memory. The model records only which member is active (`Layout`), not the member's field values or the `timestamp`.
- Native byte order: the host's byte order is a parameter (`ByteOrder`) of each `Event`, not a property of the running machine.
- Allocation of the union's memory by `new SDL_Event()` and the union's size: `Event`'s constructor takes the memory block, of any length from 4 bytes.
- The `SDL_EventType` Java class is not part of this model; the codes are SDL2's header values.
- `autoWrite`, `getPointer`, `autoWriteAndGetPointer` and `spliterator`: these are JNA native-memory and stream plumbing with no decision logic.
- `ContiguousList.Allocate`: `Structure.newInstance` and `toArray(size)` allocate native structures; the model takes the i-th new structure from a function `item` and does not model native memory or contiguity. It assumes that JNA's instantiation and allocation succeed: `Structure.newInstance` (src/main/java/org/libsdl/jna/ContiguousArrayList.java:62) throws `IllegalArgumentException` for a structure class JNA cannot instantiate, whatever the size, and the model has no such failure.
- `toArray(S[] a)`: the component type `S` of the caller's array is taken to be the list's element type, so `ArrayStoreException` is not modelled.
- `forEach`: the consumer is a state-passing function; its side effects on the rest of the program are not modelled, and `requireNonNull(action)` cannot fail because a Dafny function value is never null.
- `ListItr` extends `Itr` in Java; Dafny classes here do not inherit, so `ListItr` repeats `HasNext` and `Next`.
- `equals` on JNA structures is Dafny equality on the element type.
- Null array and collection arguments: `toArray(null)` and `containsAll(null)` throw `NullPointerException` (src/main/java/org/libsdl/jna/ContiguousArrayList.java:132 and :166). A Dafny array or sequence is never null, so these paths are not representable.
- Argument types of `indexOf`, `lastIndexOf`, `contains` and `containsAll`: Java takes any `Object`; the model takes `Option<T>`. An argument of another class equals no element under `Structure.equals`, so Java gives -1 or false for it; the model cannot express such an argument.
- `SdlNativeLibraryLoader` (library extraction, classloader lookup, `Native.register`), the constant tables, the struct mirrors without behaviour, `SDL_TimerCallback` and the tests are not part of this model: they are I/O, foreign calls, data without logic, or tests that need a native library and a display.

## Findings

| source | as written | input that shows it | evidently intended | confidence | as-written member | corrected member |
|---|---|---|---|---|---|---|
| src/main/java/org/libsdl/jna/ContiguousArrayList.java:228-230 | `lastIndexOf(null)` returns -1 without looking at the array | a list wrapping the one-element array `{null}`: `indexOf(null)` is 0 but `lastIndexOf(null)` is -1 | the last null slot, as `java.util.List.lastIndexOf` specifies and as `indexOf(null)` does for the first one | medium, not executed | `ContiguousList.LastIndexOfNullMissesNull` | `ContiguousList.LastIndex` |
