# mp4.js query and export layer in Dafny

mp4.js decodes an MP4 (ISO Base Media File Format) file into a tree of boxes
and answers questions about that tree. This project models the `MP4` object
built on top of the parsed tree:

- the object itself: the file's bytes, a synthetic `isom` root box, and the
  root of a display tree;
- the private box search `_getBox` and its two wrappers, `_getMovieBox` and
  `_getMovieHeaderBox`;
- the track queries: `getTrackCount`, `getTrackType`, `getResolution`,
  `getVolume`, and `getDuration` up to its division;
- `getJSON`, which turns a box subtree into nested `{label, children}` nodes.

The box parser is outside the model. `parse` takes it as a parameter.

Modules:

- `BoxTree` (box_tree.dfy). A box is its ordered list of enumerable
  properties plus its ordered `boxes`. A value is what the layer inspects:
  `undefined`, a number, a string, a table of entries, or a function. The
  module also defines property access, the type tests, JavaScript
  truthiness and the root box.
- `BoxSearch` (box_search.dfy). `FindBox` is the search as a function, and
  `GetBox` is the source's queue loop, proved equal to it. The search checks
  the immediate children first. If none matches, it goes down into the
  first child that has children of its own, and into no other. The second
  loop of `_getBox` returns on its first iteration.
- `TrackQueries` (track_queries.dfy). The queries as functions of the root
  box, and lemmas saying what they return. A failure is `MissingBox(type)`
  when the source dereferences the `undefined` that `_getBox` returned. It
  is `NoTrackSelected` when it dereferences the `null` that `tkhd` still
  holds.
- `JsonExport` (json_export.dfy). The display tree as a function of a box.
  It also holds the two loops of `getJSON`, proved against that function,
  and lemmas about what the export contains.
- `Mp4` (mp4.dfy). Class `Mp4File` holds the fields of the `MP4` object.
  Its query methods run the loops of getTrackCount, getTrackType,
  getResolution and getVolume, each proved equal to its function in
  `TrackQueries`. `Parse`, `GetJson` and `GetDuration` have no loop of their
  own; `GetJson` calls `JsonExport.AppendBoxNode`, which holds the loops of
  `getJSON`.

### Behaviour worth knowing

- **Search order.** `_getBox` is not a full pre-order search. It checks the
  immediate children first. Only if none matches does it descend, and then
  only into the first child that has children. A box under a later
  container child is never found (`BoxSearch.LaterSiblingNotSearched`).
- **getResolution and getVolume.** Each loop keeps the last `tkhd` it took.
  When no track's volume stops the loop, the result comes from the last
  track's `tkhd`. The call fails at the first `trak` without a `tkhd` that
  the loop reaches (a `trak` after the `break` is never read), and it fails
  when `moov` has no `trak` at all.
- **Failures.** Every failure is a dereference of `undefined` (a box the
  search did not find) or of `null` (no track selected).

## Model

| member | source | states |
|---|---|---|
| BoxTree.RootBox | mp4.js:17-18 | the constructor's root box has type `isom` and no child boxes |
| BoxTree.GetFindsFirst | mp4.js:140 | property access returns the value of the first property with that name; with no such property it is `undefined`; a defined result is always the value of a property with that name |
| BoxTree.TypeTest | mp4.js:140 | the type tests `box.type === t` (also at mp4.js:78, 91, 109 and 125) read the `type` property, a box has only one type, and a `trak` is never taken for a `moov`, `mvhd` or `tkhd` |
| BoxTree.IsNumber | mp4.js:101 | the volume tests hold exactly for the number itself, so a string volume never passes; a number that passes is truthy exactly when it is not 0 |
| BoxTree.Truthy | mp4.js:49-53 | the loop guards' truthiness: arrays and functions are truthy; `undefined`, `0` and `""` are falsy |
| BoxSearch.MatchIndex | mp4.js:139-143 | the index of the first child whose type matches: no earlier child matches, and it matches unless it is the end |
| BoxSearch.ContainerIndex | mp4.js:144-146 | the index of the first child with children, the head of the queue: every earlier child has none |
| BoxSearch.FindBox | mp4.js:137-152 | a box that the search returns has the requested type |
| BoxSearch.FindBoxIsBelow | mp4.js:137-152 | a box that the search returns has the requested type and lies strictly below the box searched |
| BoxSearch.ImmediateChildFirst | mp4.js:139-143 | when some immediate child matches, the result is the first such child in document order |
| BoxSearch.OnlyFirstContainerSearched | mp4.js:144-151 | with no matching child, the search fails if no child has children; otherwise it returns exactly the search of the first child that has children, so any result lies below that child |
| BoxSearch.MovieHeaderInsideMovie | mp4.js:154-157 | in the layout `isom{ftyp, moov{mvhd}}` the search goes down into `moov` and finds `mvhd` |
| BoxSearch.LaterSiblingNotSearched | mp4.js:149-151 | a `tkhd` that sits only under the second of two container children is in the tree but is not found |
| BoxSearch.GetBox | mp4.js:137-152 | the loop over the children plus the loop over the queue returns exactly what `FindBox` returns |
| BoxSearch.GetMovieBox | mp4.js:159-162 | the result is the search for `moov`; when found, it is a `moov` box below the root |
| BoxSearch.GetMovieHeaderBox | mp4.js:154-157 | the result is the search for `mvhd`; when found, it is an `mvhd` box below the root |
| TrackQueries.TrakCount | mp4.js:76-81 | the number of `trak` boxes never exceeds the number of boxes |
| TrackQueries.TrakCountAppend | mp4.js:76-81 | the count over two concatenated lists is the sum of their counts |
| TrackQueries.NonTrakIgnored | mp4.js:78-80 | a box of any other type, inserted anywhere, leaves the count unchanged |
| TrackQueries.TrakCountOfMixture | mp4.js:76-83 | N `trak` boxes and any other boxes, in any arrangement, count N |
| TrackQueries.NoTrakCounted | mp4.js:76-83 | a count of zero means that no box is a `trak` |
| TrackQueries.NthTrak | mp4.js:89-99 | a track is selected exactly when 0 <= index < track count; the selected box is a `trak` with exactly `index` `trak` boxes before it |
| TrackQueries.TrakCountPrefixGrows | mp4.js:91-97 | passing a `trak` strictly raises `curTrak` |
| TrackQueries.NthTrakIs | mp4.js:89-99 | the `trak` with exactly `index` `trak` boxes before it is the one selected (there is only one) |
| TrackQueries.ScanStopsAtFirst | mp4.js:108-115 | the scan ends with the `tkhd` of the first `trak` whose volume meets the stop test, when every earlier `trak` has a `tkhd` that does not |
| TrackQueries.ScanEndsAtLast | mp4.js:108-115 | with no `trak` meeting the stop test and every `tkhd` present, the scan ends with the `tkhd` of the last `trak` |
| TrackQueries.ScanWithoutTrak | mp4.js:106-115 | with no `trak` left, the scan keeps the header it had, `null` if none |
| TrackQueries.ScanFailsWithoutHeader | mp4.js:110-111 | the first `trak` without a `tkhd` that the scan reaches makes it fail |
| TrackQueries.Stops | mp4.js:111-127 | the stop tests `tkhd.volume === 0` (getResolution) and `tkhd.volume == 1` (getVolume) hold exactly for the number 0 and the number 1 |
| TrackQueries.Dimensions | mp4.js:117 | `[tkhd.width, tkhd.height]`: each defined half is the value of the `tkhd`'s `width` or `height` property |
| TrackQueries.ScanFrom | mp4.js:106-115 | the scan from index i fails only for a missing `tkhd`; any header it ends with other than the one it started with is the `tkhd` of some `trak` at or after i |
| TrackQueries.ScannedHeader | mp4.js:105-117 | fails with `MissingBox("moov")` exactly when there is no `moov`; any other failure is a missing `tkhd` or no track; a header it returns is the `tkhd` of a `trak` child of `moov` |
| TrackQueries.TrackCountOf | mp4.js:73-84 | getTrackCount fails exactly when there is no `moov`, and then on `undefined`; otherwise it is the number of `trak` children of `moov` (`TrakCount`), at most the number of its children |
| TrackQueries.TrackTypeOf | mp4.js:86-102 | fails with `MissingBox("moov")` exactly when there is no `moov`, and on `null` (`NoTrackSelected`) exactly when the index is outside [0, track count) |
| TrackQueries.ResolutionOf | mp4.js:104-118 | fails exactly when the volume-0 scan fails; any resolution is the width and height of the `tkhd` of a `trak` child of `moov` |
| TrackQueries.VolumeOf | mp4.js:120-134 | fails exactly when the volume-1 scan fails; any volume is that of the `tkhd` of a `trak` child of `moov` |
| TrackQueries.DurationOperandsOf | mp4.js:67-70 | fails exactly when no `mvhd` is found; otherwise the operands are `duration` and `timeScale` of an `mvhd` box below the root |
| TrackQueries.TrackTypeMissingHeader | mp4.js:93-101 | when the selected `trak` has no `tkhd`, getTrackType fails on the `undefined` that the search returned |
| TrackQueries.TrackTypeOfSelected | mp4.js:86-102 | the track with `index` tracks before it is Audio exactly when its `tkhd.volume` is 1, and Video exactly when it is not |
| TrackQueries.ResolutionOfFirstSilentTrack | mp4.js:104-118 | the resolution is width and height of the first `trak` whose `tkhd.volume` is 0, when every earlier `trak` has a `tkhd` |
| TrackQueries.ResolutionOfLastTrack | mp4.js:104-118 | with no volume-0 track, the resolution is that of the last `trak` |
| TrackQueries.VolumeOfFirstFullVolumeTrack | mp4.js:120-134 | the volume is 1 when some `trak` has volume 1 and every earlier `trak` has a `tkhd` |
| TrackQueries.VolumeOfLastTrack | mp4.js:120-134 | with no volume-1 track, the volume is that of the last `trak`, and it is not 1 |
| TrackQueries.NoTrackNoHeader | mp4.js:104-134 | a `moov` without any `trak` makes getResolution and getVolume fail on `null` |
| TrackQueries.ResolutionMissingHeader | mp4.js:110-111 | a `trak` without a `tkhd` that the scan reaches makes getResolution fail on `undefined` |
| TrackQueries.VolumeMissingHeader | mp4.js:126-127 | a `trak` without a `tkhd` that the scan reaches makes getVolume fail on `undefined` |
| TrackQueries.ResolutionExample | mp4.js:73-118 | for a file with one track (volume 0, 1920x1080): count 1, resolution (1920, 1080), track 0 is Video, track 1 fails |
| JsonExport.RootJson | mp4.js:19 | the root node's label property is `labe`, it has no children yet, and it is not a box node |
| JsonExport.BoxLabel | mp4.js:33 | a box's label has two pieces, the first the literal `Box - ` |
| JsonExport.Exported | mp4.js:38 | `boxes`, `constructor`, `_parent` and methods are never listed; a string `type` always is |
| JsonExport.Summary | mp4.js:50-54 | an entry summary has no children, starts with the entry's index, shows the lead property's value, and is not a box node |
| JsonExport.Run | mp4.js:49-55 | the summaries from index i on cover only entries with a truthy lead property, and stop at the first falsy one or at the end |
| JsonExport.PropertyNode | mp4.js:43-56 | a property's node is labelled name, `:`, value, is not a box node, and has a children array exactly when the value is an array |
| JsonExport.PropertyNodes | mp4.js:37-58 | no more nodes than properties, and each is the node of a property that the export lists; the count per property is in `PropertyNodesOnePerField` and `PropertyNodesAppend` |
| JsonExport.ExportBox | mp4.js:32-62 | a box's node is a box node labelled `Box - ` plus the box's type |
| JsonExport.AddChild | mp4.js:34-35 | appending keeps the node's label and puts the child after all existing children, creating the array when absent |
| JsonExport.ExportList | mp4.js:60-62 | one node per child box, in order, the i-th being the export of the i-th child |
| JsonExport.RunHasNoBoxNode | mp4.js:49-55 | no entry summary is labelled like a box node |
| JsonExport.PropertyNodesHaveNoBoxNode | mp4.js:43-57 | no property node, nor any of its summaries, is labelled like a box node |
| JsonExport.ExportIsPreOrder | mp4.js:27-65 | the box nodes of the export are one per box of the subtree, in pre-order, each labelled `Box - ` plus that box's type |
| JsonExport.ExportListIsPreOrder | mp4.js:60-62 | the box nodes of the exports of a list of boxes are the pre-orders of their subtrees, in order |
| JsonExport.PreOrderIsSubtree | mp4.js:60-62 | a box occurs in the pre-order of a subtree exactly when it lies in that subtree |
| JsonExport.PreOrderListIsChildSubtrees | mp4.js:60-62 | a box occurs in the pre-order of a list exactly when it lies under one of its members |
| JsonExport.ExportedBoxNodeCount | mp4.js:32-35 | one box node per box of the subtree, and appending keeps the parent's earlier children in front with the new node last |
| JsonExport.ExportNodeChildren | mp4.js:32-62 | a box's node has the box's label; its children are its property nodes, then one node per child box in order; it has no children array exactly when it has neither |
| JsonExport.PropertyNodesAppend | mp4.js:37-58 | the property nodes follow the enumeration order of the properties |
| JsonExport.PropertyNodesOnePerField | mp4.js:37-41 | one node per listed property, and none for methods, `boxes`, `constructor` or `_parent` |
| JsonExport.RunIsLongestTruthyRun | mp4.js:49-55 | the summaries are exactly the longest run of entries from the start with a truthy lead property, each numbered with its index |
| JsonExport.RunFromStart | mp4.js:49-55 | the summaries from the first entry are the longest run of entries with a truthy lead property, the k-th numbered k |
| JsonExport.PropertySummaries | mp4.js:43-56 | a property's label is `name:value`; only a table gets a children array; it holds the `count` run, then the `first_chunk` run counted again from 0 |
| JsonExport.StscSummaryExample | mp4.js:53-55 | an `stsc` table {1,10,1},{5,8,1} is summarised by two labels carrying those numbers, and no `count` summary |
| JsonExport.AppendSummaries | mp4.js:49-55 | one summary loop pushes exactly the run of summaries of the function model after what the array already held |
| JsonExport.PropertyChild | mp4.js:43-56 | the two summary loops build exactly the property node of the function model |
| JsonExport.AppendBoxNode | mp4.js:32-62 | the property loop and the recursive loop over child boxes append exactly the export of the box to the parent |
| Mp4.ScanTracks | mp4.js:106-115 | the loop shared by getResolution and getVolume computes the scan function |
| Mp4.Mp4File.constructor | mp4.js:15-20 | the new object holds the bytes, the `isom` root box and the `{labe: 'root'}` root node |
| Mp4.Mp4File.Parse | mp4.js:22-25 | the root box becomes what the box parser makes of the bytes and the old root; nothing else changes |
| Mp4.Mp4File.GetJson | mp4.js:27-65 | the root node gets the export of the box as its last child and is returned; bytes and box tree unchanged |
| Mp4.Mp4File.GetDuration | mp4.js:67-71 | the operands are `mvhd.duration` and `mvhd.timeScale` of the `mvhd` found; the call fails exactly when there is none |
| Mp4.Mp4File.GetTrackCount | mp4.js:73-84 | the loop computes the track count of the function model |
| Mp4.Mp4File.GetTrackType | mp4.js:86-102 | the loop with its `break` computes the track type of the function model |
| Mp4.Mp4File.GetResolution | mp4.js:104-118 | the loop computes the resolution of the function model |
| Mp4.Mp4File.GetVolume | mp4.js:120-134 | the loop computes the volume of the function model |
| Mp4.UnparsedFileHasNoTracks | mp4.js:17-18 | before parsing, the root has no `moov` or `mvhd`, so every track query fails |

## Left out

- `Box.parse`, `BufferView` and the box decoders are not part of this model. `Mp4.Mp4File.Parse` takes the parser as a function parameter.
- Mp4.Mp4File.GetDuration: returns the two operands of `duration / timeScale`, not the quotient, because the division is IEEE floating point (a zero time scale gives Infinity or NaN).
- Numbers are exact reals. NaN is not modelled.
- Text conversion: the `+` concatenations in the labels keep each converted value as a `Show` piece, so JavaScript's number-to-string formatting is not modelled.
- Mp4.Mp4File.GetTrackType: `tkhd.volume == 1` is modelled as "the volume is the number 1". Loose equality would also accept a numeric string such as `"1"`. The model assumes the box parser stores volumes as numbers; the parser is not part of this model, so this is not checked. The same holds for TrackQueries.TrackTypeOf.
- Mp4.Mp4File.GetTrackType: trackIndex is an integer. The loose comparison `curTrak == trackIndex` on an untyped argument would also select track 1 for `"1"` or `true`, and would select no track for a missing argument or `1.5`. None of this is modelled.
- Mp4.Mp4File.GetVolume: the same loose-equality simplification for `tkhd.volume == 1`, and in TrackQueries.VolumeOf.
- `for..in` enumeration: a box's properties are an explicit ordered list. Inherited enumerable properties and the engine's key ordering rules are not modelled.
- The model assumes every box has a `boxes` array. `_getBox` reads `boxes.length` of each child it passes before the first match, so a box without one would throw there. With this assumption the guard `!box || !box.boxes` of `getJSON` never fires, and `getJSON` without a box is not modelled.
- Property names: a JavaScript object cannot hold two properties with the same name, but the model's field list can. Then `BoxTree.Get` reads the first of them and `JsonExport.PropertyNodes` lists both. The model assumes names are distinct and does not state this as a precondition.
- Table elements: `box[prop][i].count` throws when an element of an array-valued property is `null` or `undefined`. `BoxTree.Entry` cannot represent such an element, so this failure is not modelled.
- `getJSON` with a parent other than the root: only the recursive calls use it (`JsonExport.AppendBoxNode`). The public call is modelled with the root as parent, as in `Mp4.Mp4File.GetJson`.
- Aliasing: the source pushes the new node onto its parent first and fills it afterwards, through the shared reference. The model builds the node and then appends it, which gives the same final tree. Sharing between nodes is not modelled.
- A failure is modelled as an `Err` result. The JavaScript `TypeError` and its unwinding are not modelled.
- BoxTree.RootBox: `Box` is not part of this model. The model assumes that `new Box()` has no enumerable property besides the `type` that the constructor sets, and that its `boxes` is empty.
- The export to `window.MP4` and the surrounding function wrapper are not modelled.
