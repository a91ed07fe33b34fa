# Display lists, damage and caches of the Flutter engine

A model of the parts of the engine where a small mistake shows on the screen:
the recorder and the player of display lists, the damage tracking behind partial
repaint, the Base 32 codec, the raster cache, the queue that releases GPU objects,
the comparison of recorded streams and the packed vertices. `dafny verify
dfyconfig.toml` checks all of it.

## What is proved

**Recording and playing back.** `Canvas` is an immediate-mode canvas that performs
every call at once. `Builder` is the recorder: deferred saves, layers and draws
dropped for having no effect, attributes recorded only when they change, restore
indices and opacity flags patched into earlier records. `Builder.Record` ties the two
together for any sequence of calls; `Player` does the same for playback, culled or
not, against a player that performs every record. `Pixels` then follows one pixel
through any calls and shows that all the recorder leaves out changes nothing,
`Culling` that playing only what an R-tree search names changes nothing either, and
`Fading` that a list which says so may be drawn at an opacity without a layer of its
own, and `LayerFading` that a layer which says so need not be made. `Pipeline` puts the
pieces end to end: record any calls, play the list back, culled or not, and the pixel is
that of the immediate canvas. `Blend` holds the blend equations and the recorder's
judgement of a paint, `Judging` the judgement in both directions: what is dropped changes
no pixel and what is kept changes some. `Marks` says of each call what it leaves behind
and what is in force after it, `Trees` that playing marks is rendering the tree of
drawings and layers they come from, `Transforms` where the transforms take a point, and
`Premises` that what the pixel theorems ask can be had.

**Damage.** `Damage` is the arithmetic, down to which pixels are painted again; `Diff`
the bookkeeping of nested subtrees over one growing vector of rectangles, and `DiffTrees`
what it amounts to in terms of the tree's nodes; `Repaint` the protocol over runs of
frames with any number of back buffers.

**The rest.** `Base32` (with `Bits`), `Compare`, `UnrefQueue`, `RasterBounds`,
`RasterCache` and `Vertices` each prove one component against a reference of its own.

## What the code does differently from what it says

- A plain colour as the colour source clears the remembered source without recording
  it (display_list/dl_builder.cc:174-179). A shader recorded before it stays in force
  in the stream until the next shader. `Canvas.StaleExactly` and `Builder.MarksExact`
  say exactly when and for which draws, `Pipeline.StaleExample` shows one,
  `Pipeline.ShadersNeverStale` that nothing else goes wrong.
- Three families of operations are judged to have no effect although they have one
  (display_list/dl_builder.cc:1698-1740, 1788-1794, 1813-1817).
  - Under DstIn, an opaque shader that is not opaque where it is drawn: with a
    translucent paint, whose alpha scales the shader's colour
    (impeller/aiks/color_source.cc:57); an image tiled as a decal, which says it is
    opaque whatever its tile modes, though past its edge it is clear
    (display_list/effects/dl_color_source.h:259; gradients do ask, 287-298); a conical
    gradient, clear outside its cone
    (impeller/entity/shaders/conical_gradient_fill.frag:31-37).
  - Under Modulate, inverted white: inversion follows the colour filter
    (display_list/dl_op_receiver.h:108-112).
  - Under either mode, text: it is judged by the paint's colour
    (display_list/dl_op_flags.h:411-416; display_list/dl_builder.cc:1423-1426), but
    colour glyphs bring their own, scaled by the paint's alpha
    (impeller/entity/shaders/glyph_atlas_color.frag:22-29), and other glyphs scale the
    paint's by their coverage as part of the source
    (impeller/entity/shaders/glyph_atlas.frag:19-26), as a blurred mask does
    (impeller/aiks/paint.cc:153-201).

  `Blend.NoEffectExact` is the exact condition, naming for the last family the contents
  that do no harm, and `Judging.DstInDropsShaders` names the shaders that are dropped; `Blend.FadedFades`, `Blend.DecalErases`, `Blend.ConicalErases`,
  `Blend.InvertedBlackens`, `Blend.GlyphReddens` and `Blend.GlyphErases` each give a
  paint and a pixel.
- Two families are kept although they change no pixel: a shader under a paint without
  alpha where a clear source leaves the surface alone, since shaders are judged without the
  paint's alpha (display_list/dl_builder.cc:1792-1794), and inverted black under Modulate.
  `Judging.JudgedExactly` says that with these and the misjudged set right the judgement
  is exact.
- Opening a layer asserts that the clip is not empty, since that would have been noticed
  (display_list/dl_builder.cc:589-597); the bounds of an enclosing layer empty it
  unnoticed (668-673). `LayerClips.UnboundedExactly` is the exact condition,
  `LayerClips.DisjointBoundsExample` an input.
- Intersecting two integer rectangles that do not meet leaves the first unchanged, so
  damage out of sight is handed on as it is (flow/diff_context.cc:143-145), unless
  alignment happens to truncate it onto the frame: `Damage.SettledInFrameExactly` is the
  exact condition, `Damage.OutOfSightExample` an input.
- `Build` does not reset the remembered opacity answer (display_list/dl_builder.cc:82-91);
  `Builder.DisplayListBuilder.Build` says exactly when the recorder is as new, and
  `Builder.RebuiltExample` makes one that is not.
- A comment says that transforms and clips do not execute when both indices are at
  their maximum (display_list/display_list.cc:100-109); the comparison is `<=`, so they
  do. Nothing is drawn after them: `Player.TrailingGeometryForwarded`.
- Texts of 1, 3 or 6 letters past a multiple of eight are decoded although no encoder
  makes them (fml/base32.cc:55-74): `Base32.EncodeDecode` is exact, and
  `Base32.AcceptedNotGivenBack` gives a text for every such length.
- The two forms of integral snapping differ for a matrix that feeds depth into x, y or
  w (flow/raster_cache_util.cc:9-68): `RasterBounds.SnapsAgree`,
  `RasterBounds.SnapsDifferExample`.
- A drain without a context forgets its textures (flow/skia_gpu_object.h:117-128):
  `UnrefQueue.TextureForgotten` is such a run, and `UnrefQueue.ForgottenExactly` says
  which textures are forgotten, and exactly when none is.
- The identity test of `Equals` holds where comparing the records need not, a
  coordinate that is not a number for one (display_list/display_list.cc:303-306):
  `Compare.NotLikeItselfExample`.

## Model

| member | source | states |
|---|---|---|
| `Builder.Record` | display_list/dl_builder.cc:66-96 | For every sequence of calls on a fresh recorder the built list brackets its saves and restores with every restore index right, playing it makes exactly the kept marks of the immediate canvas in order, each with the caller's paint, transform and clips, every layer carries the right opacity flag, and the list's own flag is true exactly if the root group holds at most one operation and that one accepts an opacity |
| `Builder.MarksExact` | display_list/dl_builder.cc:166-231 | A played mark is the one the caller meant exactly if no stale shader was standing when it was made |
| `Canvas.StaleExactly` | display_list/dl_builder.cc:166-180 | A shader is stale exactly if a plain colour was requested directly after a shader and no shader since |
| `Builder.DisplayListBuilder.Build` | display_list/dl_builder.cc:66-96 | All levels are closed, the list is faithful to the canvas, and what is left is a valid fresh recorder exactly if the paint in force takes a group opacity |
| `Builder.RebuiltExample` | display_list/dl_builder.cc:82-91 | A recorder that was built after a paint that takes no opacity, and remembers that answer |
| `Builder.DisplayListBuilder.Save` | display_list/dl_builder.cc:393-420 | Records nothing, keeps the level stack, the clip tracker and the layer tracker in lock step, and stands for a save on the canvas |
| `Builder.DisplayListBuilder.Restore` | display_list/dl_builder.cc:422-557 | Patches the save's restore index and the layer's opacity flag, records a restore only if the save was recorded, passes opacity answers outward, and stands for a restore on the canvas; the tracker conditions the source asserts hold |
| `Builder.DisplayListBuilder.RestoreToCount` | display_list/dl_builder.cc:558-563 | Ends, by the height of the stack, where restoring the canvas to that count ends |
| `Builder.DisplayListBuilder.SaveLayer` | display_list/dl_builder.cc:675-693 | A layer judged to have no effect becomes a deferred save in which nothing shows; any other is recorded; both stand for the canvas's layer |
| `Builder.DisplayListBuilder.OpenLayer` | display_list/dl_builder.cc:564-674 | The same under a paint already adopted, with the opacity answer of the layer and of its content |
| `Builder.DisplayListBuilder.CheckForDeferredSave` | display_list/dl_builder.cc:384-391 | Recording the deferred save changes nothing the invariant says |
| `Builder.DisplayListBuilder.ApplyTransform` | display_list/dl_builder.cc:694-803 | Each transform, recorded or skipped as an identity, stands for that transform on the canvas |
| `Builder.DisplayListBuilder.ClipShape` | display_list/dl_builder.cc:840-860 | A clip is recorded, or turns the level into one that shows nothing when the clip becomes empty |
| `Builder.DisplayListBuilder.Draw` | display_list/dl_builder.cc:923-1035 | A draw is recorded exactly if it is judged to have an effect and meets the clip, and tallies its opacity answer |
| `Builder.DisplayListBuilder.SetAttributesFromPaint` | display_list/dl_builder.cc:345-382 | Recording only the attributes that change leaves each attribute of the paint in force at the caller's value where its flag honours it, and at the old one where not; stroke attributes count for stroked geometry and for drawn geometry that is not filled |
| `Canvas.AdoptedHonours` | display_list/dl_builder.cc:345-382 | The reference's paint in force, attribute by attribute, from the raw flags |
| `Marks.EveryDrawMarks` | display_list/dl_builder.cc:923-1035 | Of any calls each draw leaves one mark in its place, of its drawing, under the transform and clips in force, with each attribute the caller's where honoured, kept exactly if it has an effect and is visible |
| `Marks.EveryLayerMarks` | display_list/dl_builder.cc:675-693 | And so does each layer |
| `Marks.EveryKeptDrawSeen` | display_list/dl_builder.cc:923-1035 | The receiver sees each kept draw in its place with the caller's honoured attributes, the shader aside where a stale one stood |
| `Marks.PaintInForce` | display_list/dl_builder.cc:345-382 | A call changes the paint in force only by what its own paint is honoured for |
| `Marks.ForcesAfter` | display_list/dl_builder.cc:393-860 | What each call does to the levels: what a save opens, what a restore brings back, and what transforms, clips and layers put in force |
| `Marks.DrawCounted` | display_list/dl_builder.h:530-549 | A kept draw counts once in its group with its own opacity answer, a dropped one not at all |
| `Marks.LayerCounted` | display_list/dl_builder.cc:564-674 | A kept layer counts once in the group it is in and opens a group of its own, which may distribute exactly if the layer's paint takes an opacity and is not filtered |
| `Marks.RestoreCounted` | display_list/dl_builder.cc:494-531 | Closing a layer says whether its own group distributes; the operations of a plain save are the outer group's |
| `Transforms.TransformedMaps` | display_list/dl_builder.cc:694-803 | Where each transform takes a point: it acts before those in force, and a reset forgets them |
| `Trees.TreePlayed` | display_list/dl_canvas.h:62-67 | Playing the marks of a tree of drawings and layers one by one shows what rendering the tree shows, each layer on a clear surface and then over what lies below |
| `Builder.DisplayListBuilder.SetAttribute` | display_list/dl_builder.h:267-349 | One attribute: nothing is recorded when it does not change, and the opacity answer follows |
| `Builder.ListAdopts` | display_list/dl_builder.cc:345-382 | The attributes set for a paint amount to adopting it on the honoured attributes |
| `Builder.EmittedTracked` | display_list/dl_builder.cc:127-343 | After each attribute, replaying the stream gives the remembered paint, but for a stale shader |
| `Builder.DeferredSaveRecorded` | display_list/dl_builder.cc:384-391 | A save recorded late opens the frame its level should have had |
| `Builder.ReplayUnpatched` | display_list/dl_builder.cc:430-433 | Patching a save still open does not change what was played before its restore |
| `Builder.ClosedBrackets` | display_list/dl_builder.cc:427-433 | Patching and then recording the restore keeps every restore matched |
| `Builder.SaveTallied` | display_list/dl_builder.cc:514-520 | The two opacity flags of a level, merged outward, are those of the flattened group |
| `Builder.OpTallied` | display_list/dl_builder.h:536-549 | The two flags after an operation say whether the group can distribute an opacity and whether it holds an operation |
| `Builder.IdentityTransform` | display_list/dl_builder.cc:694-740 | The transforms the recorder skips are identities |
| `Player.Dispatch` | display_list/display_list.cc:141-144 | Unculled playback shows the receiver every mark of the plain player, ends in its paint and geometry, and balances saves |
| `Player.DispatchCulled` | display_list/display_list.cc:151-167 | For every well-formed stream and nondecreasing hit list the receiver sees exactly the marks of the kept records, in order, each under the plain player's paint and geometry, with balanced saves |
| `Player.VectorCuller.Run` | display_list/display_list.cc:169-205 | The dispatch loop, under the same contract |
| `Player.VectorCuller.Update` | display_list/display_list.cc:114-133 | The next render index is the first hit from here on, duplicates skipped |
| `Player.VectorCuller.Init` | display_list/display_list.cc:95-113 | Answers whether there is a hit and starts at the first |
| `Player.DispatchContext.Execute` | display_list/dl_op_records.h:329-413 | One record on the context: what is forwarded, and the pending saves |
| `Player.KeptExactly` | display_list/dl_op_records.h:329-334 | A save is kept exactly if a hit lies between it and its restore, any other record exactly if it is a hit |
| `Player.KeptIsClosed` | display_list/dl_op_records.h:329-334 | Every save around a kept record is kept, so kept draws keep their layers |
| `Player.WellFormedNests` | display_list/dl_op_records.h:329-334 | In a well-formed stream inner saves are restored before outer ones |
| `Player.SaveSimulates` | display_list/dl_op_records.h:329-334 | A save forwarded or withheld keeps the receiver in step with the plain player |
| `Player.RestoreSimulates` | display_list/dl_op_records.h:399-406 | A restore is forwarded exactly if its save was, and brings back the right geometry |
| `Player.GeometrySimulates` | display_list/dl_op_records.h:409-413 | A transform or clip may be withheld when nothing is rendered before its level is restored |
| `Player.DrawSimulates` | display_list/dl_op_records.h:607-611 | A draw is forwarded exactly if it is named, under the plain player's geometry |
| `Player.TrailingGeometryForwarded` | display_list/display_list.cc:100-109 | With both indices at their maximum a transform or clip at the top level is still forwarded, and makes no mark |
| `Blend.NoEffectSound` | display_list/dl_builder.cc:1698-1821 | An operation judged to have no effect leaves every pixel alone under the blend equations, the misjudged families apart; shaders need only be as they describe themselves |
| `Blend.MisjudgedChanges` | display_list/dl_builder.cc:1788-1817 | Every operation of those families does change a pixel, whatever its content |
| `Blend.GlyphReddens` | display_list/dl_builder.cc:1458-1467 | A red colour glyph drawn with a white paint is judged to have no effect under Modulate and reddens the surface |
| `Blend.GlyphErases` | display_list/dl_builder.cc:1423-1430 | Opaque text is judged to have no effect under DstIn and erases the surface beside its glyphs |
| `Blend.DecalErases` | display_list/effects/dl_color_source.h:259 | An opaque image tiled as a decal in either direction is judged to have no effect under DstIn and erases the surface outside the image |
| `Blend.ConicalErases` | display_list/effects/dl_color_source.h:287-298 | So does an opaque conical gradient outside its cone |
| `Blend.FadedFades` | display_list/dl_builder.cc:1788-1794 | An opaque image drawn with a translucent paint is judged to have no effect under DstIn and fades the surface |
| `Blend.InvertedBlackens` | display_list/dl_builder.cc:1813-1817 | Inverted white is judged to have no effect under Modulate and blackens the surface |
| `Blend.NoEffectExact` | display_list/dl_builder.cc:1698-1821 | For every paint, operation and content the judgement is right exactly outside those families |
| `Judging.JudgedExactly` | display_list/dl_builder.cc:1698-1821 | An operation coloured by its paint changes no pixel, in any rendering that fits the paint, exactly if it is dropped and not misjudged or is one of the two families kept for nothing |
| `Judging.KeptChanges` | display_list/dl_builder.cc:1698-1821 | A kept operation outside those two families changes some pixel in some rendering that fits its paint |
| `Judging.DstInDropsShaders` | display_list/dl_builder.cc:1788-1794 | Under DstIn the shaders dropped are exactly the images known opaque and the gradients of opaque colours that are no decals |
| `Judging.DecalGradientsKept` | display_list/effects/dl_color_source.h:287-298 | A decal gradient or an effect is never dropped for being opaque |
| `Judging.TransparencyPreserved` | display_list/dl_builder.cc:1698-1740 | An operation said to preserve transparency leaves a clear surface clear |
| `Judging.TakesOpacityExactly` | display_list/dl_builder.h:624-655 | What takes a group opacity: source-over without colour filter or inversion, and no stroke of width zero where hairlines do not count |
| `Blend.PorterDuff` | display_list/dl_blend_mode.h:27-38 | The Porter-Duff modes are sums of what is in and what is out, and each is its opposite with the roles exchanged |
| `Blend.Separable` | display_list/dl_blend_mode.h:38-51 | The separable modes do not tell source from destination, and how they are related |
| `Blend.TiledImageKeeps` | display_list/effects/dl_color_source.h:259 | An opaque image that tiles the plane both ways is rightly dropped |
| `Blend.RecordedRendersAlike` | display_list/dl_builder.cc:564-576 | For every tree of operations and layers and every destination, rendering without the nodes judged to have no effect equals rendering all |
| `Blend.ClearLayerNopsExactly` | display_list/dl_builder.cc:1624-1696 | Without filters, a paint is said to nop on transparency exactly if a clear layer drawn with it changes no pixel |
| `Blend.ClearLayerNops` | display_list/dl_builder.cc:1624-1696 | With filters that keep clear pixels clear it changes none either |
| `Blend.OpacityDistributes` | display_list/dl_builder.h:530-549 | Fading a lone SrcOver source equals compositing it through a faded layer: the pixel step of `Fading.GroupOpacityExact` |
| `Fading.GroupOpacityExact` | display_list/dl_builder.h:530-549 | For any calls whose root group distributes an opacity, playing the kept marks with the one root-level operation or layer faded shows what playing them into a clear layer, fading that and compositing it shows |
| `Fading.CallFades` | display_list/dl_builder.h:624-663 | Each call keeps the two in step while the root group distributes |
| `Fading.CompatibleFades` | display_list/dl_builder.h:612-629 | An operation whose paint is compatible composes by SrcOver from a source that is a pixel |
| `LayerFading.EveryLayerFlagExact` | display_list/dl_builder.cc:494-508 | For any calls before, any layer then recorded and any calls inside it: if its opacity flag comes out set, drawing its content straight onto the surface below, faded by its alpha, shows what closing the layer shows |
| `LayerFading.LayerFlagExact` | display_list/skia/dl_sk_dispatcher.cc:46-66 | The same from any canvas |
| `LayerFading.InnerPerformed` | display_list/dl_builder.cc:384-918 | The inside of an open layer behaves as a canvas of its own |
| `Blend.TwoSourcesDoNotDistribute` | display_list/dl_builder.h:532-536 | Two overlapping sources do not |
| `Pixels.DroppingShowsNothing` | display_list/dl_builder.cc:564-576 | For any calls, at any pixel, the marks the recorder keeps leave the pixel as all the caller's marks do: operations and layers judged to have no effect, content outside the clip, and levels under an empty clip |
| `Pixels.CallAgrees` | display_list/dl_builder.cc:384-918 | Each call keeps the surfaces of both in step: kept ones alike, the first dropped one harmless |
| `Pixels.AdoptedJudgeable` | display_list/dl_builder.cc:345-382 | The remembered paint is judged as the caller's is, on what the operation honours |
| `LayerClips.UnboundedExactly` | display_list/dl_builder.cc:580-597 | After any calls, a layer about to be recorded finds a clip to accumulate exactly unless the innermost clip is the bounds of an enclosing layer and left nothing |
| `LayerClips.DisjointBoundsExample` | display_list/dl_builder.cc:668-673 | Two nested layers with disjoint bounds and a third that replaces what is below it |
| `Culling.CulledShowsSame` | display_list/dl_builder.cc:578-597 | If the hit list names every draw that touches a pixel and every layer that does not nop on transparency there, culled playback leaves the pixel as full playback does |
| `Culling.PlayCulled` | display_list/display_list.cc:151-205 | The culling player, with that as its contract |
| `Pipeline.RecordAndPlay` | display_list/display_list.cc:141-144 | Record any calls and play the list: the receiver sees the kept marks, without stale shaders every pixel is that of the immediate canvas, and if the list's opacity flag is set, playing it faded shows what a faded layer around it shows |
| `Pipeline.RecordAndPlayCulled` | display_list/display_list.cc:151-205 | The same with culling, at the pixels the hit list accounts for |
| `Pipeline.ShadersNeverStale` | display_list/dl_builder.cc:166-231 | Without plain colour sources no shader is ever stale |
| `Pipeline.StaleExample` | display_list/dl_builder.cc:174-179 | A plain white drawn after a shader is played back through the shader |
| `Compare.CompareOps` | display_list/display_list.cc:234-301 | The lazy bulk comparison is true exactly if the streams split into the same number of records, pairwise of one kind and size, each pair alike by its own comparison or equal in bytes |
| `Compare.Equals` | display_list/display_list.cc:303-316 | The byte and operation counts never change the answer |
| `Compare.EqualsIsEquivalence` | display_list/dl_op_records.h:62-82 | Equality of lists is an equivalence if the deep comparisons are |
| `Compare.NotLikeItselfExample` | display_list/display_list.cc:303-306 | A list whose records do not compare equal to themselves, which the identity test calls equal |
| `Compare.RecordStorage.Push` | display_list/dl_builder.cc:42-64 | Storage holds the packed records and zeros behind them, across every reallocation |
| `Compare.PackedCompare` | display_list/dl_builder.cc:42-64 | What was pushed splits into whole records with the right counts, and comparing the bytes is comparing the operations |
| `Compare.SameBytes` | display_list/dl_op_records.h:98-105 | Plain records have the same bytes exactly if kind, size and fields agree, padding being zero |
| `Compare.SameOperations` | display_list/display_list.cc:234-301 | What two builders were given compares, as bytes, exactly as the operations do: kind, size, and their own comparison or field by field |
| `Compare.PlainStreams` | display_list/display_list.cc:262-301 | Where no kind brings its own comparison, streams are the same exactly if their bytes are |
| `Diff.DiffContext.Walk` | flow/diff_context.cc:23-48 | For every tree: what is logged and what joins the damage is what the tree stands for, a function of its nodes and of what is in force; the region of each subtree, outer and inner, is exactly the rectangles of its own span of the log, and reads back or holds a texture exactly if that happened inside; the spans are those of the subtrees below, one region each, nested or apart; earlier rectangles never change, and filters, saves and state are as before |
| `Diff.DiffContext.Visit` | flow/diff_context.cc:178-236 | One layer logs, damages and changes what is in force exactly as it stands for |
| `DiffTrees.EachInItsPlace` | flow/diff_context.cc:178-236 | Each node's own part comes right after that of the nodes before it: bounds that meet the cull rectangle, adjusted and snapped as what is in force says, retained rectangles in clean subtrees, places for readbacks, and whole subtrees with dirt and filters handed down and marks starting afresh; likewise for damage |
| `DiffTrees.InForceExactly` | flow/diff_context.h:89-200 | Dirt, snapping and the one filter of a subtree hold from the node that sets them to the end of the subtree |
| `DiffTrees.RegionHoldsExactly` | flow/diff_context.cc:189-225 | A region holds the rectangles of the layers below that meet their cull rectangle, of retained regions in clean subtrees and the places of readbacks, at whatever depth, and no others |
| `DiffTrees.DamageHoldsExactly` | flow/diff_context.cc:174-206 | What a tree damages is what changed nodes held before and the bounds of layers in dirty subtrees, and nothing else |
| `DiffTrees.MarksExactly` | flow/diff_context.cc:208-244 | A texture or a readback is remembered exactly if there is one below |
| `DiffTrees.WalkedRegion` | flow/diff_context.cc:238-244 | A walked subtree's region says of the nodes below exactly what they paint and hold |
| `DiffTrees.WalkedDamage` | flow/diff_context.cc:246-255 | After a walk the damage is the least rectangle around what it was and all that the nodes damage |
| `DiffTrees.InnermostFirst` | flow/diff_context.cc:85-92 | The innermost subtree's filter adjusts the bounds first, the outermost's last |
| `Diff.DenotesForever` | flow/paint_region.h:20-47 | A region taken earlier denotes the same rectangles whatever is appended later |
| `Diff.DiffContext.WillPaintWithIntegralTransform` | flow/diff_context.h:89 | The subtree paints with the snapped transform from here on |
| `Diff.DiffContext.BeginSubtree` | flow/diff_context.cc:23-38 | Opens a subtree at the end of the vector |
| `Diff.DiffContext.EndSubtree` | flow/diff_context.cc:40-48 | Brings back the state, the filter stack and the save count; only a texture mark is passed on |
| `Diff.DiffContext.CurrentSubtreeRegion` | flow/diff_context.cc:238-244 | The region holds exactly what was logged since the subtree began, with both flags exact |
| `Diff.DiffContext.MarkSubtreeHasTextureLayer` | flow/diff_context.cc:208-216 | The mark reaches the subtree and every one around it |
| `Diff.DiffContext.AddLayerBounds` | flow/diff_context.cc:189-206 | Bounds are adjusted by the enclosing filters, innermost first, culled before and appended after snapping, and damage a dirty subtree |
| `Diff.DiffContext.AddReadbackRegion` | flow/diff_context.cc:227-236 | A readback takes a place of its own in the vector |
| `Diff.DiffContext.AddExistingPaintRegion` | flow/diff_context.cc:218-225 | A retained region is appended as it was |
| `Diff.DiffContext.ApplyFilterBoundsAdjustment` | flow/diff_context.cc:85-92 | The adjustments apply innermost first |
| `Diff.DiffContext.ComputeDamage` | flow/diff_context.cc:118-154 | The loop computes both damages of the one-pass reference |
| `Diff.ReadBackInside` | flow/diff_context.cc:238-241 | A readback's position is at or past a subtree's start exactly if it happened inside it |
| `Diff.JoinedCovers` | flow/diff_context.cc:246-255 | Every rectangle added to the damage stays covered |
| `Damage.DamageCovers` | flow/diff_context.cc:118-154 | Changed pixels of the frame are in both damages, lagging ones in the buffer's |
| `Damage.DamageOrdered` | flow/diff_context.cc:118-154 | For damage in sight, frame damage lies inside buffer damage and both inside the frame |
| `Damage.SettledTight` | flow/diff_context.cc:94-116 | Each edge is the nearest aligned one or the edge of the frame |
| `Damage.SettledInFrame` | flow/diff_context.cc:139-152 | For damage in sight the result lies in the frame and contains the clipped damage |
| `Damage.SettledInFrameExactly` | flow/diff_context.cc:94-152 | For every damage and alignment, the result lies in the frame exactly if the damage is in sight or, aligned, its left and top edges truncate onto the frame |
| `Damage.OutOfSightExample` | flow/diff_context.cc:143-145 | Damage to the right of the frame is handed on outside it, aligned or not |
| `Damage.ReadbackIncluded` | flow/diff_context.cc:125-137 | A readback met by the damage gathered before it is inside the final damage with its paint |
| `Damage.ReadbackRepainted` | flow/diff_context.cc:125-154 | If some pixel touched by the damage gathered so far lies in what a readback samples or in what it paints, every pixel of the frame in either is in both damages |
| `Damage.ReadbackUntouched` | flow/diff_context.cc:130-136 | A readback neither of whose rectangles meets the damage before it leaves that damage as it was |
| `Damage.TriggeredExactly` | flow/diff_context.cc:130-132 | A readback is triggered exactly if a pixel the damage touches lies in one of its two rectangles |
| `Damage.JoinLeast` | flow/diff_context.cc:246-259 | Joining gives the least rectangle around both |
| `Damage.IntersectsExactly` | flow/diff_context.cc:189-194 | Two rectangles intersect exactly if a point lies strictly inside both |
| `Damage.RoundOutExactly` | flow/diff_context.cc:140-142 | Rounding out takes in exactly the pixels that are touched |
| `Repaint.EveryFrameShows` | flow/surface_frame.h:45-56 | Over every run of frames, with any number of back buffers and across full repaints, each painted buffer shows its whole frame and every known lag stays right |
| `Repaint.FrameIsSafe` | flow/compositor_context.cc:123-133 | The same for one frame |
| `Repaint.Raster` | shell/common/rasterizer.cc:715-750 | The clip to paint in, and the frame damage that is still reported after a full repaint |
| `Repaint.FrameDamage.ComputeClipRect` | flow/compositor_context.cc:14-47 | The clip is the buffer damage, both damages being those of the reference |
| `Repaint.UnknownIsSafe` | flow/surface_frame.h:52-56 | Buffers of unknown content are a safe start |
| `Repaint.PartialRepaintExactly` | flow/compositor_context.cc:208-223 | In whole numbers: only part is painted exactly if there is a damage smaller than the frame in one direction and at most seven tenths of it in one |
| `Repaint.PaintsNoMore` | flow/compositor_context.cc:14-47 | Compared with the frame shown, the damage is that of the changes and of the buffer's lag, and outside it the buffer stays as it is unless all of it is painted |
| `Repaint.LagsAfter` | flow/surface_frame.h:45-56 | After a frame the painted buffer lags nowhere, every known lag is the least around what it was and the frame damage, and what is unknown stays so |
| `Repaint.IdleFrame` | flow/compositor_context.cc:14-47 | When nothing changed and the buffer is up to date, no pixel is painted |
| `Base32.DecodeEncode` | fml/base32.cc:15-74 | Decoding undoes encoding for every byte string, and n bytes take (8n+4)/5 letters |
| `Base32.EncodeDecode` | fml/base32.cc:46-74 | Of the texts decoding accepts, encoding gives back exactly those of a length the encoder produces |
| `Base32.AcceptedNotGivenBack` | fml/base32.cc:55-74 | At every other length there is an accepted text that is not given back |
| `Base32.AcceptedExactly` | fml/base32.cc:55-74 | A text is accepted exactly if all its letters are in the alphabet and its bits are whole bytes followed by fewer than eight zeros |
| `Base32.SameNumber` | fml/base32.cc:13-44 | The text read as a number in base 32, A to Z and then 2 to 7, is the octets read in base 256, filled up with fewer than five zero bits |
| `Base32.Base32Encode` | fml/base32.cc:15-44 | The loop computes the reference encoding, consumes every byte, and fails only past the size guard |
| `Base32.Base32Decode` | fml/base32.cc:55-74 | The loop computes the reference decoding, with what was read before a bad letter |
| `Base32.BitConverter.Append` | fml/base32.h:18-23 | Shifting and or-ing appends the bits to the queue |
| `Base32.BitConverter.Extract` | fml/base32.h:25-31 | Shifting and masking takes the first bits off the queue |
| `Base32.BitConverter.Peek` | fml/base32.h:33 | Gives the next bits as if zeros followed |
| `Base32.DigitOfLetter` | fml/base32.cc:13-50 | The decoding table undoes the alphabet |
| `Base32.LetterOfDigit` | fml/base32.cc:13-50 | The alphabet undoes the decoding table |
| `UnrefQueue.EveryRunConserves` | flow/skia_gpu_object.h:29-71 | Under every interleaving, accepted objects are those released, in flight or queued, as multisets, and likewise textures; what waits has a drain pending, and a pending drain has a posted task that has not swapped |
| `UnrefQueue.EmptyAtDestruction` | flow/skia_gpu_object.h:101-114 | When the queue can be destroyed it is empty and everything accepted was dealt with |
| `UnrefQueue.DrainingEnds` | flow/skia_gpu_object.h:57-71 | However the runner orders its steps it stops after so many, and only when everything accepted was dealt with |
| `UnrefQueue.ForgottenExactly` | flow/skia_gpu_object.h:57-134 | Over every run, once no drain is running the textures forgotten are exactly those of the drains that read no context; none is, exactly if every drain holding textures met one, destruction included |
| `UnrefQueue.TextureForgotten` | flow/skia_gpu_object.h:117-134 | A run that forgets a texture |
| `UnrefQueue.NoTextureForgotten` | flow/skia_gpu_object.h:73-75 | With a context at the start and at every update, no texture is ever forgotten |
| `UnrefQueue.StepConserves` | flow/skia_gpu_object.h:29-71 | Each step keeps the accounts |
| `UnrefQueue.StepAttends` | flow/skia_gpu_object.h:34-54 | Each step leaves nothing unattended |
| `UnrefQueue.AcceptedIsHandedIn` | flow/skia_gpu_object.h:29-55 | What a run accepts is what its callers hand in, each as often |
| `UnrefQueue.OneTaskForAll` | flow/skia_gpu_object.h:34-54 | However much is handed in while a drain is pending, one task is posted for all of it |
| `UnrefQueue.DrainTakesAll` | flow/skia_gpu_object.h:61-71 | A drain takes all that waits, in order, and leaves the queue ready for more |
| `UnrefQueue.ContextIsLast` | flow/skia_gpu_object.h:73-75 | The context is that of the last update, and gone with destruction |
| `UnrefQueue.DestructionReached` | flow/skia_gpu_object.h:101-114 | Once nothing is on its way, the owners can leave and the queue is destroyed with everything released |
| `RasterCache.RasterCache.RunFrame` | flow/raster_cache.cc:193-235 | Over any frame, for each kind, what is in use and what was evicted is what there was and what the uses rasterise, a function of the cache and the uses; in use is the total kept, evicted the total of what the first half leaves unmarked; survivors are exactly the marked keys, the new cache is given in full, and access counts count the marks from the first visible one of the entry's lifetime |
| `RasterCache.MadeIsGrowth` | flow/raster_cache.cc:116-140 | What uses rasterise is exactly what the totals grow by, images and bytes |
| `RasterCache.NothingMade` | flow/raster_cache.cc:123-137 | Without a successful update nothing is rasterised |
| `RasterCache.RasterCache.TryToPrepareDisplayList` | flow/layers/display_list_raster_cache_item.cc:142-175 | It succeeds exactly if the item is to be cached, no ancestor is, the frame may still make images, and there is an image already or a surface to make one on; an image there is stays, a new one has the right size, bytes and rectangle; nothing else in the cache changes, and the frame's count grows by one exactly if an image was made |
| `RasterCache.RasterCache.PrepareAll` | flow/raster_cache.h:218-222 | Over any run of such items the frame makes as many images as its limit allows or as keys want one, whichever is less, none when caching is off, and keeps every image there was |
| `RasterCache.SinceVisibleExactly` | flow/raster_cache.cc:142-153 | Accesses count from the first visible mark on, visible or not |
| `RasterCache.RasterCache.MarkSeen` | flow/raster_cache.cc:142-153 | The entry is marked and its access count is that of its marks |
| `RasterCache.RasterCache.UpdateCacheEntry` | flow/raster_cache.cc:116-140 | Rasterises only without an image, and what is made is accounted for |
| `RasterCache.RasterCache.EvictUnusedCacheEntries` | flow/raster_cache.cc:212-230 | Exactly the marked entries stay, unchanged, and the metrics grow by what goes |
| `RasterCache.RasterCache.EndFrame` | flow/raster_cache.cc:199-235 | The books close: in use and evicted is start and made |
| `RasterCache.RasterCache.BeginFrame` | flow/raster_cache.cc:193-197 | The books open with what is cached |
| `RasterCache.RasterCache.EstimateCacheByteSize` | flow/raster_cache.cc:292-312 | The estimate is the total of the bytes of that kind |
| `RasterCache.RasterCache.GetAccessCount` | flow/raster_cache.cc:155-163 | The number of marks since the first visible one, or -1 |
| `RasterCache.RasterCache.Draw` | flow/raster_cache.cc:173-191 | A cached image is found by key, and its place is as large as the image to within a pixel, exactly when the matrix only scales and translates |
| `RasterCache.TotalAt` | flow/raster_cache.cc:199-210 | Totals do not depend on the order of the entries |
| `RasterBounds.CachedImageFits` | flow/raster_cache.cc:36-45 | For any two affine matrices with the same key the rounded-out bounds differ by at most one each way, by none when snapping applies |
| `RasterBounds.BoundIsTight` | flow/raster_cache.cc:43-45 | The difference of one occurs |
| `RasterBounds.MapRectExactly` | flow/raster_cache_util.h:59-65 | The mapped rectangle is around the four mapped corners and has one on each edge |
| `RasterBounds.KeysAgree` | flow/raster_cache_key.h:84-88 | Keys agree exactly for one item under matrices that differ in translation only |
| `RasterBounds.SnappedTranslation` | flow/raster_cache_util.cc:9-31 | Snapping moves a translation by at most half a pixel to a whole one, keeps the key, and is done after once |
| `RasterBounds.SnapsAgree` | flow/raster_cache_util.cc:33-68 | When the two forms of snapping agree |
| `RasterBounds.SnapsDifferExample` | flow/raster_cache_util.cc:33-68 | A matrix the flat form snaps and the full form does not |
| `RasterBounds.IdEqualsIsEquality` | flow/raster_cache_key.h:45-62 | Comparing hashes on the way changes nothing: equality of keys is structural |
| `Vertices.Make` | display_list/dl_vertices.cc:39-80 | What comes out reads back as what went in, the missing and empty arrays as documented |
| `Vertices.Copy` | display_list/dl_vertices.cc:132-140 | The copy has the same mode, arrays and size |
| `Vertices.VerticesEqual` | display_list/dl_vertices.cc:178-200 | Equality is that of mode and arrays; counts and size follow |
| `Vertices.LayoutFits` | display_list/dl_vertices.cc:23-37 | The arrays are in order, apart, aligned, and fill the size exactly |
| `Vertices.DlVertices.Store` | display_list/dl_vertices.cc:225-275 | Storing one array changes that one and no other |
| `Vertices.DlVertices.constructor` | display_list/dl_vertices.cc:96-130 | The copying constructor packs what it is given and reads back the same |
| `Vertices.DlVertices.Reserve` | display_list/dl_vertices.cc:142-176 | Room for exactly the announced arrays |
| `Vertices.Builder.StoreVertices` | display_list/dl_vertices.cc:225-232 | In whatever order arrays are stored, each lands in its own place |
| `Vertices.ChunksOfFlat` | display_list/dl_vertices.cc:108-119 | An array read back from memory is the array copied there |

## Left out

- Float rounding, and scalars that are not finite: numbers are reals, so the finiteness guards of transforms and clips (display_list/dl_builder.cc:694-860) have no counterpart.
- Skia and Impeller: path geometry, stroke padding, fast bounds, rendering. The clip tracker is the list of what it was told plus two answers, whether the clip is empty and whether a drawing meets it.
- The tests for ovals and rectangles in rounded rectangle and path clips and draws, which only pick another record of the same meaning.
- Bounds accumulators and the R-tree: a search is assumed to return record indices in nondecreasing order; for pixels, to name what reaches the pixel. The layer tracker is its save count.
- Pixels.DroppingShowsNothing: asks that no honoured paint has an image filter, because those look beyond one pixel, and that no paint is one of the misjudged; the part of image filters in judging and in clips is modelled.
- Pixels.CallAgrees: the same for one call.
- Judging.JudgedExactly: is about operations that honour the colour and the blend mode and are coloured by the paint, without image filters; images are in `Judging.ImagesDropped`.
- Judging.KeptChanges: the same.
- Judging.TransparencyPreserved: asks that no image filter is honoured.
- Culling.CulledShowsSame: image filters have no part in the pixel meaning, so a layer with one is taken for the same layer without; the bounds they spread are for the search to account for.
- Culling.PlayCulled: the same.
- LayerFading.EveryLayerFlagExact: asks of the paints what `Pixels` asks, and leaves out the two other conditions of the dispatcher, no backdrop and content not clipped by the bounds.
- LayerFading.LayerFlagExact: the same.
- Fading.CallFades: asks of the paints what `Pixels` asks.
- Blend.RecordedRendersAlike: asks that dropped nodes are not of the misjudged families and honour no image filter.
- Pipeline.RecordAndPlay: the pixel part asks the same of the paints.
- Pipeline.RecordAndPlayCulled: the pixel part asks the same of the paints.
- Fading.GroupOpacityExact: fading scales the source of the operation; that a receiver reaches this through the alpha byte of a paint is rounding and left out. Operations that always take an opacity must not honour the blend mode.
- Layer bounds given by the caller count as hints: `Pixels` asks that they exclude no content that touches the pixel.
- Builder.DisplayListBuilder.Build: the bounds accumulator, which is not reset either, is no part of the recorder here.
- Builder.DisplayListBuilder.Restore: the bounds patched into a layer's record and its content-is-clipped option are left out with the accumulators.
- Builder.DisplayListBuilder.SaveLayer: backdrop filters are left out, because what they sample is rendering.
- Builder.DisplayListBuilder.OpenLayer: backdrop filters are left out; the assertion on unbounded accumulation is stated apart, in `LayerClips`.
- Backdrop filters and scene colour sources; `DrawDisplayList` is a draw that ignores the paint.
- `modifies_transparent_black` of a list: the flag is not carried out of plain saves (display_list/dl_builder.cc:509-531).
- Byte offsets of records: `Builder` and `Player` address records by index; `Compare` models the bytes.
- Rotation takes the cosine and the sine of its angle.
- Builder.DisplayListBuilder.Draw: stands for all draw methods that judge, accumulate bounds, record and tally; the operation's flags and its opacity rule are parameters.
- Player.DispatchCulled: asks that indices fit an `int`, as the source does.
- Repaint.Raster: a frame with a root layer, on a surface that supports partial repaint, of one size throughout; resubmitted and skipped frames are left out.
- The diff of layers against their old versions, which decides what is `Changed` and what `Unchanged` in a tree: its result is assumed to cover every changed pixel. The transforms and clips it pushes enter as the mapped bounds.
- UnrefQueue.EveryRunConserves: on values, as a state machine over the critical sections, because threads interleave; tasks and destruction follow the references they hold. Delays, `performDeferredCleanup` and `flushAndSubmit` are left out.
- Base32.BitConverter.Append: the queue of bits is a ghost beside the integer; buffer lengths beyond the width of `int` are excluded by the source at compile time and do not arise.
- RasterCache.RasterCache.Draw: the size under a projective matrix is a parameter, and the claim is for affine ones. Blitting by R-tree rectangles is left out.
- The cached hash of keys, `Clear` in the middle of a frame as part of the frame's accounts.
- Vertices.VerticesEqual: elements are compared as bytes, not as floats.
- Compare.Equals: the deep comparisons are parameters, nested lists among them. Which kinds are deep, and how each counts, are parameters too.
- Texture and readback maps across frames, `AsciiTrie`, stopwatches, mutator stacks, asset bundles, settings, task runners, scripts: easy members or plumbing.
