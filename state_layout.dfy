// The StateLayout container itself: a class whose current state and child
// list change in place, over child views whose layout-parameter mask and
// visibility change in place. Every state-changing method is proved to move
// the container's value (`Model()`) as the matching function of StateModel
// says; the properties of those functions are proved there.
module StateLayouts {
  import opened Wrappers
  import opened StateMasks
  import opened StateModel
  import opened SavedStates

  /** Dereferencing a missing view. */
  datatype Outcome = Ok | NullDereference

  /**
   * A child view: its id, the `state` of its `StateLayout.LayoutParams`, and
   * whether it is VISIBLE (otherwise GONE).
   */
  class View {
    const id: int
    var mask: Mask
    var visible: bool

    /** A view inflated with an optional `layout_state` attribute; without one its mask is `-1`. */
    constructor (id: int, layoutState: Option<Mask>)
      ensures this.id == id && visible
      ensures mask == layoutState.GetOr(UNSET)
    {
      this.id := id;
      mask := layoutState.GetOr(UNSET);
      visible := true;
    }
  }

  /** The children's masks and visibilities, in order. */
  ghost function Records(vs: seq<View>): (r: seq<Child>)
    reads vs
    ensures |r| == |vs|
    ensures forall k :: 0 <= k < |vs| ==> r[k] == Child(vs[k].mask, vs[k].visible)
  {
    if vs == [] then [] else [Child(vs[0].mask, vs[0].visible)] + Records(vs[1..])
  }

  /** The records of `vs` are `cs` when they agree child by child. */
  lemma RecordsAre(vs: seq<View>, cs: seq<Child>)
    requires |vs| == |cs|
    requires forall k :: 0 <= k < |vs| ==> Child(vs[k].mask, vs[k].visible) == cs[k]
    ensures Records(vs) == cs
  {
  }

  /** No view occurs twice: a view has at most one parent. */
  ghost predicate Distinct(vs: seq<View>)
  {
    forall i, j :: 0 <= i < j < |vs| ==> vs[i] != vs[j]
  }

  class StateLayout {
    var currentState: Mask
    /** Whether the container is attached to a window. */
    var attached: bool
    var children: seq<View>
    /** How many times the children's visibility has been recomputed. */
    ghost var recomputes: nat

    ghost predicate Valid()
      reads this
    {
      Distinct(children)
    }

    /** The container as a value. */
    ghost function Model(): Layout
      reads this, children
    {
      Layout(currentState, attached, Records(children), recomputes)
    }

    /**
     * A container built from a layout file: the `initWith` attribute gives
     * the initial state (DEFAULT without it), the inflated views are its
     * children, and it starts detached.
     */
    constructor (initWith: Option<Mask>, inflated: seq<View>)
      requires Distinct(inflated)
      ensures Valid() && children == inflated
      ensures Model() == Initial(initWith.GetOr(STATE_DEFAULT), Records(inflated))
    {
      currentState := initWith.GetOr(STATE_DEFAULT);
      attached := false;
      children := inflated;
      recomputes := 0;
    }

    /** `showStateView(state)`: each child becomes visible iff its mask overlaps `state`. */
    method ShowStateView(state: Mask)
      requires Valid()
      modifies this`recomputes, children
      ensures Valid() && children == old(children)
      ensures Model() == Show(old(Model()), state)
    {
      ghost var before := Records(children);
      var i := 0;
      while i < |children|
        modifies children
        invariant 0 <= i <= |children|
        invariant forall k :: 0 <= k < |children| ==> children[k].mask == before[k].mask
        invariant forall k :: 0 <= k < i ==> children[k].visible == HasFlag(before[k].mask, state)
        invariant forall k :: i <= k < |children| ==> children[k].visible == before[k].visible
      {
        var child := children[i];
        assert forall k :: 0 <= k < |children| && k != i ==> children[k] != child;
        child.visible := HasFlag(child.mask, state);
        i := i + 1;
      }
      recomputes := recomputes + 1;
      forall k | 0 <= k < |children| ensures Child(children[k].mask, children[k].visible) == Recompute(before, state)[k] {
        RecomputeAt(before, state, k);
      }
      RecordsAre(children, Recompute(before, state));
    }

    /** `onAttachedToWindow`: now attached, the children show the current state. */
    method OnAttachedToWindow()
      requires Valid()
      modifies this, children
      ensures Valid() && children == old(children)
      ensures Model() == Attach(old(Model()))
    {
      attached := true;
      ShowStateView(currentState);
    }

    /** The framework detaching the container from its window: only `attached` changes. */
    method OnDetachedFromWindow()
      modifies this`attached
      ensures Model() == Detach(old(Model()))
    {
      attached := false;
    }

    /**
     * The private `setView(state, view, add)`: a NONE state is ignored;
     * otherwise the view is tagged with `state` (a missing view fails there)
     * and, when `add`, appended to the children.
     */
    method Tag(state: Mask, v: View?, add: bool) returns (res: Outcome)
      requires Valid()
      requires add && v != null ==> v !in children
      modifies if add then {this} else {}, v
      ensures Valid()
      ensures res == (if state != STATE_NONE && v == null then NullDereference else Ok)
      ensures currentState == old(currentState) && attached == old(attached)
      ensures recomputes == old(recomputes)
      ensures v != null ==> v.visible == old(v.visible)
      ensures v != null ==> v.mask == (if state == STATE_NONE then old(v.mask) else state)
      ensures children == if add && v != null && state != STATE_NONE then old(children) + [v] else old(children)
      ensures forall k :: 0 <= k < |old(children)| && old(children)[k] == v ==>
        Model() == TagChild(old(Model()), k, state)
      ensures v !in old(children) && !add ==> Model() == old(Model())
      ensures v != null && add ==> Model() == AddChild(old(Model()), state, Child(old(v.mask), old(v.visible)))
    {
      if state == STATE_NONE {
        return Ok;
      }
      if v == null {
        return NullDereference;
      }
      ghost var before := Records(children);
      v.mask := state;
      if add {
        children := children + [v];
        RecordsAre(children, before + [Child(state, v.visible)]);
      } else if v in children {
        forall k | 0 <= k < |children| && children[k] == v {
          RecordsAre(children, before[k := Child(state, v.visible)]);
        }
      }
      res := Ok;
    }

    /** `setView(state, view)`: tag a view without adding it. */
    method SetView(state: Mask, v: View)
      requires Valid()
      modifies v
      ensures Valid() && children == old(children)
      ensures currentState == old(currentState)
      ensures v.visible == old(v.visible)
      ensures v.mask == (if state == STATE_NONE then old(v.mask) else state)
      ensures forall k :: 0 <= k < |children| && children[k] == v ==>
        Model() == TagChild(old(Model()), k, state)
      ensures v !in children ==> Model() == old(Model())
    {
      var _ := Tag(state, v, false);
    }

    /** `addView(state, view)`: tag a view that has no parent and append it; NONE is ignored. */
    method AddView(state: Mask, v: View)
      requires Valid() && v !in children
      modifies this, v
      ensures Valid()
      ensures children == if state == STATE_NONE then old(children) else old(children) + [v]
      ensures v.mask == (if state == STATE_NONE then old(v.mask) else state)
      ensures Model() == AddChild(old(Model()), state, Child(old(v.mask), old(v.visible)))
    {
      var _ := Tag(state, v, true);
    }

    /**
     * `findViewById(id)` over the children: the first child with that id,
     * or null when there is none.
     */
    method FindViewById(id: int) returns (v: View?)
      ensures v == null <==> forall k :: 0 <= k < |children| ==> children[k].id != id
      ensures v != null ==>
        exists k :: 0 <= k < |children| && children[k] == v && v.id == id &&
          (forall j :: 0 <= j < k ==> children[j].id != id)
    {
      var i := 0;
      while i < |children|
        invariant 0 <= i <= |children|
        invariant forall j :: 0 <= j < i ==> children[j].id != id
      {
        if children[i].id == id {
          return children[i];
        }
        i := i + 1;
      }
      return null;
    }

    /**
     * `setViewResId(state, id)`: tag the child with that id. NONE is ignored
     * even when no child has the id; otherwise a missing id fails.
     */
    method SetViewResId(state: Mask, id: int) returns (res: Outcome)
      requires Valid()
      modifies children
      ensures Valid() && children == old(children)
      ensures currentState == old(currentState)
      ensures res == NullDereference <==>
        state != STATE_NONE && forall k :: 0 <= k < |children| ==> children[k].id != id
      ensures res == NullDereference || state == STATE_NONE ==> Model() == old(Model())
      ensures forall k ::
        (0 <= k < |children| && children[k].id == id && forall j :: 0 <= j < k ==> children[j].id != id) ==>
          Model() == TagChild(old(Model()), k, state)
    {
      var v := FindViewById(id);
      if v != null {
        SetView(state, v);
        res := Ok;
      } else {
        res := Tag(state, null, false);
      }
    }

    /** `initWith(state)`: always assign; recompute only when attached. */
    method InitWith(state: Mask)
      requires Valid()
      modifies this, children
      ensures Valid() && children == old(children)
      ensures Model() == StateModel.InitWith(old(Model()), state)
    {
      currentState := state;
      if attached {
        ShowStateView(state);
      }
    }

    /** `setState(state)`: nothing when unchanged, else assign and recompute. */
    method SetState(state: Mask)
      requires Valid()
      modifies this, children
      ensures Valid() && children == old(children)
      ensures Model() == StateModel.SetState(old(Model()), state)
    {
      if currentState == state {
        return;
      }
      currentState := state;
      ShowStateView(state);
    }

    /** `getState()`. */
    method GetState() returns (s: Mask)
      ensures s == currentState
    {
      s := currentState;
    }

    /** `hasState(flag)`: the current state shares a bit with `flag`. */
    method HasState(flag: Mask) returns (r: bool)
      ensures r <==> exists k: BitIndex :: HasBit(currentState, k) && HasBit(flag, k)
      ensures flag == STATE_NONE ==> !r
    {
      r := HasFlag(currentState, flag);
      CommonBit(currentState, flag);
    }

    /** `onSaveInstanceState`: a payload carrying the current state. */
    method OnSaveInstanceState() returns (p: Parcelable)
      ensures p.Saved? && p.saved.currentLayoutState == currentState
    {
      p := Saved(SavedState(currentState));
    }

    /** `onRestoreInstanceState` as written: the container's own state is not touched. */
    method OnRestoreInstanceState(p: Parcelable)
      ensures Model() == Restore(old(Model()), p)
    {
    }

    /** The restore the saved field is meant for: the saved state is written back as by `initWith`. */
    method RestoreInstanceStateIntended(p: Parcelable)
      requires Valid()
      modifies this, children
      ensures Valid() && children == old(children)
      ensures Model() == RestoreIntended(old(Model()), p)
    {
      if p.Saved? {
        InitWith(p.saved.currentLayoutState);
      }
    }
  }
}
