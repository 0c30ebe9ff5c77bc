// Saving and restoring the container's state across reconstruction: the
// `SavedState` payload, its one-int parcel encoding, and the restore hook as
// written beside the restore it evidently meant to perform.
module SavedStates {
  import opened Wrappers
  import opened StateMasks
  import opened StateModel

  /** `StateLayout.SavedState`; the superclass's part of the payload is not modelled. */
  datatype SavedState = SavedState(currentLayoutState: Mask)

  /** What the restore hook receives: this container's payload, or any other `Parcelable`. */
  datatype Parcelable = Saved(saved: SavedState) | Foreign

  /** A parcel as the ints written to it so far and a read cursor. */
  datatype Parcel = Parcel(data: seq<bv32>, pos: nat)

  /** `onSaveInstanceState`: capture the current state in a new payload. */
  function Save(l: Layout): Parcelable
  {
    Saved(SavedState(l.state))
  }

  /** `writeToParcel`: append the saved state as one int. */
  function WriteToParcel(ss: SavedState, dest: Parcel): Parcel
  {
    dest.(data := dest.data + [ss.currentLayoutState])
  }

  /** `SavedState(Parcel)`: read one int at the cursor and advance; None when the parcel is exhausted. */
  function CreateFromParcel(src: Parcel): Option<(SavedState, Parcel)>
  {
    if src.pos < |src.data| then Some((SavedState(src.data[src.pos]), src.(pos := src.pos + 1)))
    else None
  }

  /**
   * `onRestoreInstanceState` as written: either branch hands the superclass
   * its part and nothing of the container's own state is touched.
   */
  function Restore(l: Layout, p: Parcelable): Layout
  {
    match p
    case Foreign => l
    case Saved(_) => l
  }

  /**
   * The restore the saved field is evidently for: write the saved state
   * back, recomputing the children when attached, as `initWith` does.
   */
  function RestoreIntended(l: Layout, p: Parcelable): Layout
  {
    match p
    case Foreign => l
    case Saved(ss) => InitWith(l, ss.currentLayoutState)
  }

  /**
   * Writing a payload and reading it back at the position where it was
   * written yields the same payload, with the cursor just past it, whatever
   * the parcel held before.
   */
  lemma ParcelRoundTrip(ss: SavedState, dest: Parcel)
    ensures CreateFromParcel(WriteToParcel(ss, dest).(pos := |dest.data|))
         == Some((ss, Parcel(dest.data + [ss.currentLayoutState], |dest.data| + 1)))
  {
  }

  /** The payload captured by a save carries the current state through a parcel. */
  lemma SaveThroughParcel(l: Layout, dest: Parcel)
    ensures var q := WriteToParcel(Save(l).saved, dest).(pos := |dest.data|);
      CreateFromParcel(q).Some? && CreateFromParcel(q).value.0.currentLayoutState == l.state
  {
    ParcelRoundTrip(Save(l).saved, dest);
  }

  /** As written, restoring changes nothing in the container. */
  lemma RestoreKeepsState(l: Layout, p: Parcelable)
    ensures Restore(l, p) == l
  {
  }

  /**
   * As written, a container rebuilt at DEFAULT and handed a payload saved
   * in ERROR stays at DEFAULT: the saved state is lost.
   */
  lemma RestoreDropsSavedState(rebuilt: Layout, before: Layout)
    requires rebuilt.state == STATE_DEFAULT && before.state == STATE_ERROR
    ensures Restore(rebuilt, Save(before)).state == STATE_DEFAULT
    ensures Restore(rebuilt, Save(before)).state != before.state
  {
  }

  /**
   * With the intended restore, a state saved, written to a parcel and read
   * back is the state of the rebuilt container; if the rebuilt container is
   * attached its children show that state, and their masks are kept.
   */
  lemma RestoreIntendedRoundTrip(before: Layout, rebuilt: Layout, dest: Parcel)
    ensures var q := WriteToParcel(Save(before).saved, dest).(pos := |dest.data|);
      CreateFromParcel(q).Some? &&
      var after := RestoreIntended(rebuilt, Saved(CreateFromParcel(q).value.0));
      after.state == before.state &&
      Masks(after.children) == Masks(rebuilt.children) &&
      (rebuilt.attached ==> Shows(after.children, before.state)) &&
      (!rebuilt.attached ==> after.children == rebuilt.children)
  {
    ParcelRoundTrip(Save(before).saved, dest);
    if rebuilt.attached {
      InitWithAttached(rebuilt, before.state);
    }
  }
}
