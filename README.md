# Bottle scene: texture lookup and ready barrier

This project models the two pieces of logic in the soda-bottle Babylon.js scene
(`src/routes/babylon.ts`) that decide which texture goes where and when the
scene may go on. Both are proved correct in Dafny.

- `retrieveTexture(meshMat, channel, textures)` scans the loaded textures in
  order. It returns the first one whose file name is `<meshMat>_<channel>.png`,
  or that followed by `_` and anything, with no `_` in either key, as judged by
  JavaScript's `split`. The name is cut at `/`, the last segment is
  cut at `_`, and piece 0 is compared with the material and piece 1 with the
  channel plus `.png`. The module `TextureLookup` (`texture_lookup.dfy`) models
  `split` on one-character separators as a recursive function with its inverse
  `Join`, and the lookup as a recursive search returning an `Option`. It proves:
  - which texture is found, and that it is the first match;
  - that nothing is found exactly when nothing matches;
  - that directories do not matter;
  - the exact file names that match;
  - that different channels and materials never collide;
  - the three lookups of `assignTextures` on the three URLs of `loadTexturesAsync`,
    written as the literal strings of the source.
- `whenAllReady(textures, resolve)` is a fan-in barrier, modelled by the module
  `ReadyBarrier` (`ready_barrier.dfy`).
  - The counter `numRemaining` starts at the list length. An empty list resolves
    at once.
  - One synchronous scan decrements the counter for every ready texture. It
    resolves when the counter hits zero, and registers a one-shot load callback
    on every other texture that has a load observable.
  - Each callback decrements the counter and resolves at zero.
  - The class `Barrier` keeps the counter, the per-texture callback state and
    the number of `resolve` calls as fields. Its constructor, `Scan` and
    `OnLoad` are the three moments at which the source changes them.
  - The invariant `Consistent` ties the fields to a specification on values:
    the slots after the scan (`ScanSlots`) followed by the load events so far
    (`LoadAll`).
  - From this it proves:
    - the counter always equals the length minus the textures counted;
    - `resolve` runs at most once, and exactly when the last texture is counted;
    - an empty or all-ready list resolves during the scan with no callback
      registered;
    - the order and repetition of load events do not matter;
    - a texture that is neither ready nor observable keeps the barrier open forever.

## Model

| member | source | states |
|---|---|---|
| TextureLookup.Split | src/routes/babylon.ts:174-176 | `split` on one character gives at least one piece, and no piece contains the separator |
| TextureLookup.SplitJoin | src/routes/babylon.ts:174-176 | joining the pieces of a split with the separator gives back the original string |
| TextureLookup.JoinSplit | src/routes/babylon.ts:174-176 | splitting a join of separator-free pieces gives back those pieces |
| TextureLookup.SplitNoSeparator | src/routes/babylon.ts:174-176 | a string without the separator splits into itself alone |
| TextureLookup.SplitConcat | src/routes/babylon.ts:174-176 | a separator between two strings splits them independently: the pieces of the whole are the pieces of each, concatenated |
| TextureLookup.SplitExamples | src/routes/babylon.ts:175-176 | `"a_b_c.png"` splits into `a`, `b`, `c.png`; a name without `_` has no piece 1 (JavaScript's `undefined`) |
| TextureLookup.LastSegment | src/routes/babylon.ts:174-176 | the last `/`-segment contains no `/` |
| TextureLookup.LastSegmentIsFileName | src/routes/babylon.ts:174-176 | the last segment is a suffix of the name that is either the whole name or preceded by `/` |
| TextureLookup.LastSegmentIgnoresDirectory | src/routes/babylon.ts:174-176 | prefixing a directory and `/` does not change the last segment |
| TextureLookup.MatchesIgnoresDirectory | src/routes/babylon.ts:174-176 | whether a texture matches does not depend on its directory |
| TextureLookup.MatchedFileName | src/routes/babylon.ts:175-176 | a matching texture's file name is `meshMat_channel.png`, optionally followed by `_` and more, and neither key contains `_` |
| TextureLookup.FileNameMatched | src/routes/babylon.ts:175-176 | conversely, every such file name matches |
| TextureLookup.MatchesFileName | src/routes/babylon.ts:175-176 | a texture matches if and only if its file name has that form and the keys contain no `_` |
| TextureLookup.ChannelsNeverCollide | src/routes/babylon.ts:176 | one texture never matches the same material under two different channels |
| TextureLookup.MaterialsNeverCollide | src/routes/babylon.ts:175 | one texture never matches two different materials |
| TextureLookup.Matches | src/routes/babylon.ts:175-176 | the test applied to one texture: piece 0 of the file name is `meshMat` and piece 1 exists and is `channel + ".png"`; a missing piece 1 (JavaScript's `undefined`) never matches. `MatchesFileName` characterises it |
| TextureLookup.RetrieveIndex | src/routes/babylon.ts:171-182 | the found position holds a matching texture with no match before it; nothing is found exactly when no texture matches |
| TextureLookup.RetrieveTexture | src/routes/babylon.ts:171-182 | the result is an element of the list that matches; it exists exactly when some texture matches; and it is the first match |
| TextureLookup.RetrieveUnique | src/routes/babylon.ts:173-178 | when exactly one texture matches, that texture is the result |
| TextureLookup.RetrieveIgnoresLaterTextures | src/routes/babylon.ts:173-178 | once a match exists, appending textures does not change the result: the early return fixes it |
| TextureLookup.FileNameMatchesOwnKey | src/routes/babylon.ts:175-176 | a texture at `dir/mat_ch.png` (no `_` or `/` in the keys) matches exactly the request `(mat, ch)` |
| TextureLookup.SodaTexturesMatch | src/routes/babylon.ts:127-131 | each of the three scene textures answers exactly its own material and channel |
| TextureLookup.SodaTexturesAt | src/routes/babylon.ts:127-131 | the scene's three textures, in the source's order, served from any directory |
| TextureLookup.SodaLookup | src/routes/babylon.ts:171-182 | on the scene's list under any directory, every request returns the position of its own texture when it is one of the three, and nothing otherwise |
| TextureLookup.SodaLookups | src/routes/babylon.ts:188-193 | on the scene's list under any directory, bottle thickness finds texture 0, liquid thickness texture 1 and bottle translucency texture 2; liquid translucency finds nothing |
| TextureLookup.SceneTextures | src/routes/babylon.ts:127-135 | definition: the list the loop at lines 133-135 builds, one texture per literal URL in order; `SceneTexturesAreSodaTextures` and `SceneLookups` state what holds of it |
| TextureLookup.SceneUrlsUnderAssetDir | src/routes/babylon.ts:128-130 | each literal URL of the source is the texture URL of its material and channel under the scene's asset directory |
| TextureLookup.SceneTexturesAreSodaTextures | src/routes/babylon.ts:127-135 | the textures built from the literal URL list are `SodaTexturesAt` of the asset directory |
| TextureLookup.SceneLookups | src/routes/babylon.ts:188-193 | on the textures of the literal URL list, the bottle's thickness and translucency and the liquid's thickness return textures 0, 2 and 1; the liquid's translucency returns nothing |
| ReadyBarrier.CountedCount | src/routes/babylon.ts:154-164 | how many textures the barrier has counted down, at most their number; `Consistent` ties the counter to the length minus this |
| ReadyBarrier.ReadyCount | src/routes/babylon.ts:153-154 | how many textures were ready at scan time, at most their number |
| ReadyBarrier.CountedCountFull | src/routes/babylon.ts:154-164 | the counted total reaches the number of textures exactly when every texture is counted |
| ReadyBarrier.CountedCountZero | src/routes/babylon.ts:145 | the counted total is zero exactly when no texture is counted |
| ReadyBarrier.ReadyCountFull | src/routes/babylon.ts:153-154 | the ready total reaches the length exactly when every texture is ready |
| ReadyBarrier.CountedCountUpdate | src/routes/babylon.ts:154-162 | changing one texture's state changes the counted total by the difference of what the two states count |
| ReadyBarrier.ScanSlot | src/routes/babylon.ts:153-166 | the scan's decision for one texture: counted if ready, a callback if it has a load observable, otherwise nothing |
| ReadyBarrier.ScanSlots | src/routes/babylon.ts:151-167 | the scan's decisions for the whole list, one per texture; `ScanSlotsAt` states them pointwise |
| ReadyBarrier.ScanSlotsAt | src/routes/babylon.ts:151-167 | the scan decides each texture on its own: counted if ready, callback if observable, otherwise nothing |
| ReadyBarrier.ScanCountsReady | src/routes/babylon.ts:151-157 | the scan counts down exactly the ready textures |
| ReadyBarrier.AllReadyRegistersNothing | src/routes/babylon.ts:153-157 | when every texture is ready, the scan registers no callback |
| ReadyBarrier.LoadSlot | src/routes/babylon.ts:161-165 | definition of one load notification, keeping the number of slots; `LoadAllAt` states its effect: a registered callback that has not fired fires (`addOnce`), and nothing else changes |
| ReadyBarrier.LoadAll | src/routes/babylon.ts:161-165 | the load events so far, applied in arrival order; `LoadAllAt` states the outcome pointwise |
| ReadyBarrier.LoadAllAt | src/routes/babylon.ts:161-165 | after any load events, a texture's callback has fired exactly when it was registered and its texture loaded; nothing else changes |
| ReadyBarrier.LoadAllSnoc | src/routes/babylon.ts:161-165 | one more load event is one more step of the run |
| ReadyBarrier.LoadOrderIrrelevant | src/routes/babylon.ts:161-165 | event sequences that load the same textures, in any order and with repeats, end in the same state (`addOnce`) |
| ReadyBarrier.Resolution | src/routes/babylon.ts:151-165 | after the scan and any load events, everything is counted if and only if each texture was ready or was observable and has loaded |
| ReadyBarrier.UnobservedBlocks | src/routes/babylon.ts:158-166 | a texture neither ready nor observable keeps the count short forever, so `resolve` never runs |
| ReadyBarrier.Consistent | src/routes/babylon.ts:144-169 | the barrier invariant: the counter is the length minus the counted textures, `resolve` has run once exactly when the scan is over and the counter is zero, and the state is the scan's followed by the loads so far |
| ReadyBarrier.SameLoadsSameState | src/routes/babylon.ts:161-165 | two scanned barriers with the same scan and the same set of loaded textures, in any order and with repeats, have the same slots, counter and number of `resolve` calls |
| ReadyBarrier.ScanConsistent | src/routes/babylon.ts:151-168 | a complete scan with the counter at length minus ready count, resolved exactly at zero, satisfies the barrier invariant |
| ReadyBarrier.ScanLoop | src/routes/babylon.ts:151-168 | the loop leaves every texture in its scan state, the counter at the number of non-ready textures, and reports a resolve exactly when that is zero |
| ReadyBarrier.LoadConsistent | src/routes/babylon.ts:161-165 | only a scanned barrier with a positive counter has a registered callback, and firing one keeps the invariant, resolving when the counter was 1 |
| ReadyBarrier.Barrier.constructor | src/routes/babylon.ts:145 | the counter starts at the number of textures, nothing is registered, and nothing has resolved |
| ReadyBarrier.Barrier.Scan | src/routes/babylon.ts:144-169 | an empty list resolves at once; otherwise the slots are the scan's, the counter is the number of non-ready textures, and `resolve` has run once if all were ready, else never |
| ReadyBarrier.Barrier.ResolvesAtMostOnce | src/routes/babylon.ts:154-164 | on any valid barrier `resolve` has run at most once, and exactly when the scan is over and every texture is counted |
| ReadyBarrier.Barrier.ResolvedExactlyWhenAllLoaded | src/routes/babylon.ts:151-165 | after the scan, `resolve` has run exactly when each texture was ready or was observable and has loaded |
| ReadyBarrier.Barrier.UnobservedNeverResolves | src/routes/babylon.ts:158-166 | if some texture was neither ready nor observable at the scan, `resolve` has not run, whatever loads follow |
| ReadyBarrier.ThreeTexturesScenario | src/routes/babylon.ts:133-137 | three unready observable textures: nothing resolves at the scan or while any is outstanding, a repeated load counts once, and the last new load resolves exactly once |
| ReadyBarrier.EmptyListScenario | src/routes/babylon.ts:145-149 | an empty list resolves once, immediately, with nothing registered |
| ReadyBarrier.AllReadyScenario | src/routes/babylon.ts:151-157 | when all textures are ready the scan resolves once, registers no callback, and a later load changes nothing |
| ReadyBarrier.Barrier.OnLoad | src/routes/babylon.ts:161-165 | a load fires the texture's callback only if one is registered; the counter drops by one and `resolve` runs exactly when it was 1; it has run once exactly when all textures are counted |

## Left out

- The Babylon.js engine is not modelled: texture construction, the scene, `isReady()` and `onLoadObservable`. A texture is its `name`, the URL it was created from. Readiness and the presence of a load observable at scan time are the parameters `ready` and `hasObservable` of `Scan`.
- `resolve` is a counter of its calls.
- The Promise around `whenAllReady` in `loadTexturesAsync` (lines 125-141) and the `then` continuation are left out, because they are asynchronous plumbing.
- Load events are the calls `OnLoad(i)`, in any order and with repeats. A load before the scan registers nothing and so has no effect.
- Barrier.Scan: readiness is one snapshot taken at scan time. It does not model a texture becoming ready during the loop.
- ScanLoop: requires a non-empty list, because the source reaches the loop only after returning early on an empty one. `Barrier.Scan` models that early return.
- ScanLoop: the early `return` at zero is a `break` that is proved to happen only on the last texture. The loop therefore ends in the same state either way.
- The shared local `numRemaining` is the `remaining` field, since the callbacks close over it. The callbacks themselves are the per-texture `Slot` states.
- The per-texture states are a `seq` field that the methods reassign, not an array. Nothing else holds a reference to it, so no aliasing is lost.
- `assignTextures` (lines 184-197) is left out, apart from its three `retrieveTexture` calls. Its material property assignments and `dispose` calls are engine operations.
- The same `Texture` object may appear at two positions of the list. Its one load then notifies both `addOnce` callbacks, which the model renders as the two events `OnLoad(i)` and `OnLoad(j)`. The lemmas about all event sequences cover this case.
- JavaScript strings are UTF-16 code units, and a Dafny `string` is a sequence of Unicode scalar values. Splitting on the ASCII characters `/` and `_` and comparing strings give the same result in both for well-formed names, so the model uses `string` throughout.
- The mesh-missing early returns and the numeric material and lighting constants elsewhere in the file are left out. They do not bear on the lookup or the barrier.
- The DOM canvas, the resize listener and the rest of the scene setup are left out, because they are I/O.
