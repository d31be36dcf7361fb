# COVID_vis: preprint merge and layer registry, modelled in Dafny

This project models two small pieces of logic from a repository of map visualisations. The
visualisations show research institutions as points and their collaborations as arcs.

- **The preprint DOI merge** (`collabVisServer/scripts/getNewPreprints.js`, module `Preprints`).
  `updatePreprints` walks the related preprints of a fetched bioRxiv collection. For each one
  whose `rel_doi` no stored record carries, it appends a `{doi}` record to the stored list. It
  counts the appended records in `added`. In the model:
  - the module-level list is the `preprints` field of class `PreprintStore`;
  - the loop is the method `UpdatePreprints`;
  - the method is proved against `Merged`. `Merged` is the stored list followed by one `{doi}`
    record per DOI produced by `Unseen`.
  - `Unseen` is an independent front-to-back definition. It yields the DOIs not yet stored, each
    once (lemma `UnseenDistinct`). The lemma `UnseenOrder` proves they come in the order of their
    first occurrence.

  A DOI is either a string or `Undefined`. `Undefined` stands for a record without the property;
  strict equality treats two `undefined` values as equal, and so does the model.
- **`LayerManager`** (`archive_10-2020/collabVis/src/layers.js`, module `Layers`). This class holds:
  - a `showInst` flag;
  - the latest institutions layer and the latest collaborations layer, as `null`-able slots;
  - the ordered list of every layer it built.

  Each map-library layer is modelled as a descriptor holding the properties the code sets: id,
  data, accessors (kept as the property name they select), colours, radius, transitions, update
  trigger, brushing settings and extensions. The class methods are tied to a pure state machine:
  `Step` handles one call and `Run` handles a sequence of calls. The lemmas about `Run` state what
  holds across many calls.

## Model

| member | source | states |
|---|---|---|
| `Preprints.PreprintStore.constructor` | collabVisServer/scripts/getNewPreprints.js:6-7 | The store holds exactly the loaded records. |
| `Preprints.PreprintStore.UpdatePreprints` | collabVisServer/scripts/getNewPreprints.js:27-35 | The merge loop leaves the list equal to `Merged(old list, rels)`. The old list stays a prefix. `added` is the growth of the list and at most `|rels|`. |
| `Preprints.Unseen` | collabVisServer/scripts/getNewPreprints.js:29-32 | The DOIs to append: exactly the related DOIs that are not already stored, and no more of them than there are related entries. |
| `Preprints.UnseenDistinct` | collabVisServer/scripts/getNewPreprints.js:31-32 | No DOI is appended twice, even when it occurs several times among the related entries. |
| `Preprints.UnseenOrder` | collabVisServer/scripts/getNewPreprints.js:29-32 | The appended DOIs come in the order of their first occurrence in the related list: an earlier appended DOI first occurs before a later one. |
| `Preprints.UnseenSnoc` | collabVisServer/scripts/getNewPreprints.js:29-33 | One more related DOI adds itself to the appended DOIs exactly when it is neither stored nor seen earlier in the loop. |
| `Preprints.EntriesDois` | collabVisServer/scripts/getNewPreprints.js:32 | The appended `{doi}` records carry exactly the DOIs they were made from, no more and no fewer. |
| `Preprints.MergedSnoc` | collabVisServer/scripts/getNewPreprints.js:30-33 | The loop step: a DOI appends `{doi: d}` at the end exactly when no record of the list so far carries it. This includes records appended earlier in the same loop. |
| `Preprints.MergedCovers` | collabVisServer/scripts/getNewPreprints.js:30-33 | After the merge, a DOI is present exactly when it was stored before or is a related DOI. So every `rel_doi` is the `doi` of some record. |
| `Preprints.MergedDistinct` | collabVisServer/scripts/getNewPreprints.js:31-32 | If the stored DOIs were pairwise distinct, the merged DOIs are too. |
| `Preprints.UnseenCount` | collabVisServer/scripts/getNewPreprints.js:31-33 | The number of appended DOIs equals the number of distinct related DOIs that were not stored. |
| `Preprints.MergedGrowth` | collabVisServer/scripts/getNewPreprints.js:28-34 | The list grows by the number of distinct new related DOIs, which is at most `|rels|`. |
| `Preprints.MergedUnchanged` | collabVisServer/scripts/getNewPreprints.js:31-35 | The merge leaves the list unchanged if and only if every related DOI is already stored. |
| `Preprints.MergedIdempotent` | collabVisServer/scripts/getNewPreprints.js:29-35 | Running the merge again with the same collection changes nothing. |
| `Layers.LayerManager.constructor` | archive_10-2020/collabVis/src/layers.js:15-20 | A new manager has `showInst` false, both slots `null` and no layers. Its state satisfies the registry invariant. |
| `Layers.LayerManager.ShowInstLayer` | archive_10-2020/collabVis/src/layers.js:22-24 | Sets `showInst` to true and, by its frame, changes nothing else. Layers already built are untouched. |
| `Layers.LayerManager.MkInstLayer` | archive_10-2020/collabVis/src/layers.js:26-48 | Appends one institutions layer, built with the current `showInst`, at the end of `layers`. Earlier entries are kept. The `instLayer` slot points to the new layer. |
| `Layers.LayerManager.MkCollabLayer` | archive_10-2020/collabVis/src/layers.js:50-68 | Appends one collaborations layer at the end of `layers` and points the `collabLayer` slot to it. The layer has brushing off, brushing radius 40000, is pickable and uses `arcColor` for both ends. |
| `Layers.LayerManager.GetLayers` | archive_10-2020/collabVis/src/layers.js:70-72 | Returns the layer list in insertion order and modifies nothing. |
| `Layers.Step` | archive_10-2020/collabVis/src/layers.js:22-68 | Each call preserves the registry invariant. Every layer was made by one of the two builders, and each slot holds the last layer with its id. No layer was built as shown while `showInst` is false. |
| `Layers.RunConsistent` | archive_10-2020/collabVis/src/layers.js:14-73 | Every state reachable from a new manager satisfies the registry invariant. |
| `Layers.RunAppend` | archive_10-2020/collabVis/src/layers.js:14-73 | Making calls `a` and then calls `b` is the same as making calls `a + b`. |
| `Layers.RunKeepsLayers` | archive_10-2020/collabVis/src/layers.js:47-67 | Layers are never removed, replaced or reordered. The list grows by exactly one layer per `mk*Layer` call, with no de-duplication by id. |
| `Layers.RunPrefixLayers` | archive_10-2020/collabVis/src/layers.js:47-67 | The layer list after any first part of a call sequence stays unchanged at the front of the list after the whole sequence. |
| `Layers.RunShowInst` | archive_10-2020/collabVis/src/layers.js:16-24 | After any calls, `showInst` is true exactly when it was before or one of the calls was `showInstLayer`. |
| `Layers.RunLastBuilt` | archive_10-2020/collabVis/src/layers.js:26-67 | A final building call puts its layer at the end, built with the `showInst` value of that moment. |
| `Layers.RunUptoBuilt` | archive_10-2020/collabVis/src/layers.js:26-67 | Right after the `j`-th call builds a layer, that layer is the last one. It sits at the position given by the number of earlier building calls and was built with the `showInst` those calls left. |
| `Layers.RunBuiltLayer` | archive_10-2020/collabVis/src/layers.js:26-67 | The layer of the `j`-th call is at the position given by the number of earlier building calls. For an institutions layer, that layer keeps radius 50000, fill `[255,255,255,0]` and trigger `[true]` if some earlier call showed institutions. Otherwise it keeps radius 0, fill `dotColor` and trigger `[false]`. |
| `Layers.ShowInstIdempotent` | archive_10-2020/collabVis/src/layers.js:22-24 | In any sequence of calls, calling `showInstLayer` twice in a row has the same effect as calling it once. |

## Left out

- Fetching the collection (`getURL` with its HTTP request), loading the JSON file and writing it back are I/O. The model takes the stored records and the `rel_doi` of each related entry as inputs. It assumes the fetch succeeded: a failed fetch makes `getURL` return `undefined`, and line 27 then throws. The `console.log` of the count is not modelled either.
- Related entries are reduced to their `rel_doi`; no other property of them is read by the merge.
- Values of the other properties of a stored record are kept as opaque strings. Only their presence and their preservation matter to the merge.
- A `doi` of a stored record or a `rel_doi` of a fetched entry that is neither a string nor missing is not modelled. This covers a number or `null` in either JSON document; `Doi` cannot represent such a value.
- The map library's layer classes (`MapboxLayer`, `ScatterplotLayer`, `ArcLayer`, `BrushingExtension`) and all rendering are foreign code. Only the properties passed to them are kept. The accessors are recorded as the property they select, or, for the constant colour accessors, as the colour they return.
- The transition animation is not modelled. The easing curve is recorded only by name, and the 3000 ms durations as constants.
- Coordinates and rows of the data sets are opaque values; the model never looks inside them.
- The page scripts (`index.js` variants), the static file server, the logger configuration and the bundler configuration are not part of this model. They are DOM, map and event plumbing, or configuration.
- The commented-out layer factories at the end of `layers.js` are dead code.
- `LayerManager` has no operation that changes a layer once it is built: there is no toggle for visibility or brushing of an existing layer. `enableBrushing` is never reassigned and the hover handler is commented out, so every collaborations layer has brushing off. A new `showInst` value takes effect only through the next `mkInstLayer`.
- Layers.LayerManager.GetLayers: returns a copy of the layer list. In the source it returns the live `this.layers` array, which later `push` calls extend in place. The model therefore does not capture that aliasing: an array obtained earlier growing with later `mk*Layer` calls, or a caller's own mutation of it changing the manager's list and breaking the registry invariant. Likewise, `mkInstLayer` and `mkCollabLayer` store the caller's `data` array by reference in the new layer (`layers.js:30` and `layers.js:54`). The model stores a `seq<Row>` value, so a later change to that array by the caller is not reflected in the built layers.
