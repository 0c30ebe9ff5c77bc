# StateLayout in Dafny

A model of `StateLayout`, an Android `FrameLayout` that shows the child views
belonging to its current state and hides the others. States are bits of a
32-bit Java `int`: NONE (0), DEFAULT (1), CONTENT (2), EMPTY (4), ERROR (8),
LOADING (16), and application-defined states `custom(i) = LOADING << (i+1)`.
Each child carries a mask in its `LayoutParams.state` (default `-1`). When the
container recomputes, a child is VISIBLE iff its mask and the state share a
bit, and GONE otherwise. `setState` recomputes only when the state changes.
`initWith` always assigns, and recomputes only when attached. Attaching to a
window recomputes. The state is saved as one int and parcelled.

Files:

- `masks.dfy` (module `StateMasks`): masks as `bv32`, the reserved constants,
  `Custom` with Java's 5-bit shift distance, `HasFlag`, and the lemmas about bits.
- `model.dfy` (module `StateModel`): the container as a value (`Layout`). Every
  operation is a function from the old value to the new one. The lemmas about
  visibility, idempotence and tagging are proved here.
- `saved_state.dfy` (module `SavedStates`): the saved payload, its one-int
  parcel encoding, restore as written and restore as intended.
- `state_layout.dfy` (module `StateLayouts`): classes `View` and `StateLayout`.
  Their fields change in place. Every state-changing method is proved to move
  `Model()` as the matching `StateModel` function says. `showStateView` is a
  loop over the children that updates each child's visibility in place.
- `wrappers.dfy` (module `Wrappers`): `Option`, for attributes that may be absent.

Two behaviours of the code a reader may not expect:

- An untagged child (mask `-1`, all ones) overlaps every state except NONE,
  so it is shown in every other state
  (`StateMasks.UnsetOverlapsEveryState`, `StateModel.SetStateShowsUnsetChild`).
- Custom states do not always avoid the reserved bits. Java shifts by
  `(i+1) & 31`, and bits shifted past bit 31 are lost. So `custom(27)` to
  `custom(30)` are NONE, and `custom(31)` and `custom(-1)` are LOADING. Only
  `0 <= i <= 26` gives fresh, distinct bits (`StateMasks.CustomWraps`).

## Model

| member | source | states |
|---|---|---|
| StateMasks.CustomIsSingleBit | statelayout/src/main/java/com/objectlife/statelayout/StateLayout.java:44-48 | for 0 <= i <= 26, custom(i) is the single bit 2^(5+i) |
| StateMasks.CustomAvoidsReserved | statelayout/src/main/java/com/objectlife/statelayout/StateLayout.java:39-48 | for 0 <= i <= 26, custom(i) is not NONE and shares no bit with DEFAULT, CONTENT, EMPTY, ERROR or LOADING |
| StateMasks.CustomInjective | statelayout/src/main/java/com/objectlife/statelayout/StateLayout.java:46-48 | on 0..26, custom is injective, and two different custom states share no bit |
| StateMasks.CustomWraps | statelayout/src/main/java/com/objectlife/statelayout/StateLayout.java:46-48 | custom(27..30) == NONE; custom(31) == custom(-1) == LOADING, because the shift distance is taken mod 32 |
| StateMasks.CommonBit | statelayout/src/main/java/com/objectlife/statelayout/StateLayout.java:157-159 | hasFlag(a, b) holds iff a and b have a set bit in common: overlap, not equality |
| StateMasks.UnsetOverlapsEveryState | statelayout/src/main/java/com/objectlife/statelayout/StateLayout.java:241 | the default mask -1 overlaps state s iff s != NONE |
| StateMasks.NoneOverlapsNothing | statelayout/src/main/java/com/objectlife/statelayout/StateLayout.java:157-159 | no mask overlaps NONE |
| StateMasks.CombinedStates | statelayout/src/main/java/com/objectlife/statelayout/StateLayout.java:143-159 | hasState(CONTENT or LOADING) holds in LOADING and in CONTENT but not in EMPTY; a child tagged custom(0) or LOADING overlaps LOADING, custom(0) and both together |
| StateModel.Recompute | statelayout/src/main/java/com/objectlife/statelayout/StateLayout.java:149-154 | a recompute pass keeps the number of children |
| StateModel.RecomputeAt | statelayout/src/main/java/com/objectlife/statelayout/StateLayout.java:147-155 | after a pass, child k keeps its mask and is visible iff its mask overlaps the state |
| StateModel.RecomputeShows | statelayout/src/main/java/com/objectlife/statelayout/StateLayout.java:147-155 | a pass keeps every mask, and afterwards every child shows the state, whatever the visibilities were before |
| StateModel.RecomputeStable | statelayout/src/main/java/com/objectlife/statelayout/StateLayout.java:147-155 | a pass over children that already show the state changes nothing |
| StateModel.RecomputeForgetsVisibility | statelayout/src/main/java/com/objectlife/statelayout/StateLayout.java:147-155 | the outcome of a pass depends only on the masks and the state |
| StateModel.SetStateSameIsNoOp | statelayout/src/main/java/com/objectlife/statelayout/StateLayout.java:131-134 | setState with the current state changes nothing: state, visibilities and recompute count stay the same |
| StateModel.SetStateChanges | statelayout/src/main/java/com/objectlife/statelayout/StateLayout.java:135-136 | setState with a new state assigns it and recomputes exactly once; attachment and child masks are kept; every child is then visible iff its mask overlaps the new state |
| StateModel.SetStateTwice | statelayout/src/main/java/com/objectlife/statelayout/StateLayout.java:131-137 | two equal setState calls in a row equal one call, and they recompute at most once |
| StateModel.SetStateNoneHidesAll | statelayout/src/main/java/com/objectlife/statelayout/StateLayout.java:135-159 | setState(NONE) from another state hides every child |
| StateModel.SetStateShowsUnsetChild | statelayout/src/main/java/com/objectlife/statelayout/StateLayout.java:135-159 | after setState to a new nonzero state, a child left at mask -1 is visible |
| StateModel.SetStateKeepsInStep | statelayout/src/main/java/com/objectlife/statelayout/StateLayout.java:131-137 | if the children show the current state, they still show it after any setState |
| StateModel.InitWithAttached | statelayout/src/main/java/com/objectlife/statelayout/StateLayout.java:122-128 | initWith while attached assigns the state, stays attached and recomputes once; masks are kept and the children then show the state |
| StateModel.InitWithDetached | statelayout/src/main/java/com/objectlife/statelayout/StateLayout.java:122-128 | initWith while detached assigns the state and stays detached; children and recompute count are unchanged |
| StateModel.InitWithAfterDetach | statelayout/src/main/java/com/objectlife/statelayout/StateLayout.java:122-128 | after attach then detach, initWith assigns the state but does not recompute: the children still show the state they were attached with |
| StateModel.AttachShowsCurrentState | statelayout/src/main/java/com/objectlife/statelayout/StateLayout.java:77-80 | attaching keeps the state and the masks, and the children then show the current state |
| StateModel.TagNoneIsNoOp | statelayout/src/main/java/com/objectlife/statelayout/StateLayout.java:82-85 | setView and addView with NONE change nothing and append nothing |
| StateModel.TagChildSetsOneMask | statelayout/src/main/java/com/objectlife/statelayout/StateLayout.java:82-91 | setView with a real state sets exactly that child's mask; every visibility, every other child, the state and the recompute count are kept |
| StateModel.AddChildAppends | statelayout/src/main/java/com/objectlife/statelayout/StateLayout.java:105-108 | addView with a real state keeps the existing children and appends one child tagged with the state |
| StateModel.ContentThenEmpty | statelayout/src/main/java/com/objectlife/statelayout/StateLayout.java:82-137 | add CONTENT and EMPTY children, then initWith(CONTENT) while attached: only the CONTENT child shows; setState(EMPTY) then swaps them, and the state is EMPTY |
| SavedStates.ParcelRoundTrip | statelayout/src/main/java/com/objectlife/statelayout/StateLayout.java:209-218 | writing a SavedState to a parcel and reading it back from that position gives the same SavedState, with the cursor just past it |
| SavedStates.SaveThroughParcel | statelayout/src/main/java/com/objectlife/statelayout/StateLayout.java:183-218 | the payload of a save, parcelled and read back, carries the current state unchanged |
| SavedStates.RestoreKeepsState | statelayout/src/main/java/com/objectlife/statelayout/StateLayout.java:191-199 | as written, restoring any Parcelable leaves the container as it was |
| SavedStates.RestoreDropsSavedState | statelayout/src/main/java/com/objectlife/statelayout/StateLayout.java:191-199 | as written, a container rebuilt at DEFAULT that receives a payload saved in ERROR stays at DEFAULT |
| SavedStates.RestoreIntendedRoundTrip | statelayout/src/main/java/com/objectlife/statelayout/StateLayout.java:183-218 | with the intended restore, save, parcel, read and restore give the rebuilt container the saved state; masks are kept; when attached the children show the saved state, when detached they are untouched |
| StateLayouts.View.constructor | statelayout/src/main/java/com/objectlife/statelayout/StateLayout.java:239-260 | a child's mask is its layout_state attribute, or -1 without one |
| StateLayouts.StateLayout.constructor | statelayout/src/main/java/com/objectlife/statelayout/StateLayout.java:50-74 | the initial state is the initWith attribute, or DEFAULT without one; the container starts detached with no recompute |
| StateLayouts.StateLayout.ShowStateView | statelayout/src/main/java/com/objectlife/statelayout/StateLayout.java:147-155 | the in-place loop over the children is one recompute pass: masks kept, each child visible iff its mask overlaps the state, count up by one |
| StateLayouts.StateLayout.OnAttachedToWindow | statelayout/src/main/java/com/objectlife/statelayout/StateLayout.java:77-80 | the container becomes attached and recomputes for the current state |
| StateLayouts.StateLayout.OnDetachedFromWindow | statelayout/src/main/java/com/objectlife/statelayout/StateLayout.java:125 | the framework's detach makes the attachment test false and changes nothing else |
| StateLayouts.StateLayout.Tag | statelayout/src/main/java/com/objectlife/statelayout/StateLayout.java:82-91 | NONE changes nothing; a null view fails with a null dereference; otherwise the view's mask becomes the state, it is appended iff add, and nothing else changes |
| StateLayouts.StateLayout.SetView | statelayout/src/main/java/com/objectlife/statelayout/StateLayout.java:100-102 | tags the view without adding it; the child list and the state are kept |
| StateLayouts.StateLayout.AddView | statelayout/src/main/java/com/objectlife/statelayout/StateLayout.java:105-108 | tags the view and appends it, or does nothing for NONE |
| StateLayouts.StateLayout.FindViewById | statelayout/src/main/java/com/objectlife/statelayout/StateLayout.java:118 | returns the first child with the id, or null iff no child has it |
| StateLayouts.StateLayout.SetViewResId | statelayout/src/main/java/com/objectlife/statelayout/StateLayout.java:117-120 | tags the first child with the id; fails with a null dereference iff the state is not NONE and no child has the id |
| StateLayouts.StateLayout.InitWith | statelayout/src/main/java/com/objectlife/statelayout/StateLayout.java:122-128 | moves the container as StateModel.InitWith says |
| StateLayouts.StateLayout.SetState | statelayout/src/main/java/com/objectlife/statelayout/StateLayout.java:131-137 | moves the container as StateModel.SetState says |
| StateLayouts.StateLayout.GetState | statelayout/src/main/java/com/objectlife/statelayout/StateLayout.java:139-141 | returns the current state and changes nothing |
| StateLayouts.StateLayout.HasState | statelayout/src/main/java/com/objectlife/statelayout/StateLayout.java:143-145 | true iff the current state and the flag share a set bit, so always false for NONE; changes nothing |
| StateLayouts.StateLayout.OnSaveInstanceState | statelayout/src/main/java/com/objectlife/statelayout/StateLayout.java:183-188 | returns a SavedState whose field is the current state |
| StateLayouts.StateLayout.OnRestoreInstanceState | statelayout/src/main/java/com/objectlife/statelayout/StateLayout.java:191-199 | as written: the container's state and children are not touched |
| StateLayouts.StateLayout.RestoreInstanceStateIntended | statelayout/src/main/java/com/objectlife/statelayout/StateLayout.java:191-199 | corrected restore: a SavedState's field becomes the current state, as initWith would set it |

## Findings

| source | as written | input that shows it | evidently intended | confidence | as-written member | corrected member |
|---|---|---|---|---|---|---|
| statelayout/src/main/java/com/objectlife/statelayout/StateLayout.java:191-199 | the restore hook passes the superclass its part and never reads `currentLayoutState` back, though the state was saved (183-188) and parcelled (209-218) | a container rebuilt at DEFAULT receives a payload saved in ERROR and stays at DEFAULT | write the saved state back and recompute when attached, as `initWith` does | medium, not executed | SavedStates.RestoreDropsSavedState | SavedStates.RestoreIntendedRoundTrip |

## Left out

- Sample activities: they only inflate layouts, wire buttons to `setState` and start activities.
- Attribute reading (`TypedArray` for `initWith` and `layout_state`) becomes constructor parameters.
- `Log.d` output is left out.
- `ViewCompat.isAttachedToWindow` becomes the `attached` field. The framework's attach and detach set it (`OnAttachedToWindow`, `OnDetachedFromWindow`).
- Layout-params generation and type checks (`checkLayoutParams`, `generateLayoutParams`) are left out.
- Tag: the views passed to `setView`, `addView` and `setViewResId` are assumed to hold `StateLayout.LayoutParams`. A view with null layout params (a NullPointerException at line 86) or another parent type's params (a ClassCastException at line 86) fails before anything is tagged or added; those failures are not modelled. The same holds for AddView and SetView.
- Chaining: `setView`, `addView` and `setViewResId` return `this` in Java. The model's methods return nothing, or an `Outcome`.
- FindViewById: searches only the direct children, in order. Java's lookup also matches the container's own id and deeper descendants; that search is framework code and is not part of this model. Java also returns null for the id `NO_ID` (-1); the model would return a child whose id is -1, so `setViewResId(s, -1)` tags such a child instead of failing.
- AddView: requires the view to have no parent. Android's `ViewGroup.addView` throws for a view that already has one; that exception is not modelled.
- Children added through the plain `ViewGroup.addView(View)` are not modelled apart from the inflated children given to the constructor.
- Parcels: only the SavedState's own int is modelled. The superclass state, `CREATOR` and `newArray` are left out. Reading past the end of a parcel gives `None`; the framework's behaviour there is not part of this model.
- Measurement, drawing and rendering: a child is only VISIBLE or GONE.
