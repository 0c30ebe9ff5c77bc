// The StateLayout container as a value: its current state, whether it is
// attached to a window, its children in order (each a mask and a visibility)
// and the number of visibility recomputations done so far. Each operation of
// the container is a function from the value before to the value after; the
// class in state_layout.dfy is proved to follow these functions.
module StateModel {
  import opened StateMasks

  /** A child view as the container sees it: its `LayoutParams.state` and whether it is VISIBLE (else GONE). */
  datatype Child = Child(mask: Mask, visible: bool)

  datatype Layout = Layout(state: Mask, attached: bool, children: seq<Child>, recomputes: nat)

  /** The masks of the children, in order. */
  function Masks(cs: seq<Child>): (ms: seq<Mask>)
    ensures |ms| == |cs| && forall k :: 0 <= k < |cs| ==> ms[k] == cs[k].mask
  {
    if cs == [] then [] else [cs[0].mask] + Masks(cs[1..])
  }

  /**
   * One pass of `showStateView(state)` over the children: each child becomes
   * visible when its mask overlaps `state` and gone otherwise.
   */
  function Recompute(cs: seq<Child>, state: Mask): (r: seq<Child>)
    ensures |r| == |cs|
  {
    if cs == [] then []
    else [Child(cs[0].mask, HasFlag(cs[0].mask, state))] + Recompute(cs[1..], state)
  }

  /** Every child is visible exactly when its mask overlaps `state`. */
  ghost predicate Shows(cs: seq<Child>, state: Mask)
  {
    forall k :: 0 <= k < |cs| ==> (cs[k].visible <==> HasFlag(cs[k].mask, state))
  }

  /** `showStateView(state)`: recompute the children's visibility for `state`. */
  function Show(l: Layout, state: Mask): Layout
  {
    l.(children := Recompute(l.children, state), recomputes := l.recomputes + 1)
  }

  /** The container as constructed: `initWith` attribute (default DEFAULT), detached, with its inflated children. */
  function Initial(initWith: Mask, children: seq<Child>): Layout
  {
    Layout(initWith, false, children, 0)
  }

  /** `onAttachedToWindow`. */
  function Attach(l: Layout): Layout
  {
    Show(l.(attached := true), l.state)
  }

  /** `setState(state)`: nothing when the state is unchanged, else assign and recompute. */
  function SetState(l: Layout, state: Mask): Layout
  {
    if l.state == state then l else Show(l.(state := state), state)
  }

  /** The framework detaching the container from its window; nothing of the container's own runs. */
  function Detach(l: Layout): Layout
  {
    l.(attached := false)
  }

  /** `initWith(state)`: always assign; recompute only when attached. */
  function InitWith(l: Layout, state: Mask): Layout
  {
    if l.attached then Show(l.(state := state), state) else l.(state := state)
  }

  /** `setView(state, child k)` on a child already in the container. */
  function TagChild(l: Layout, k: nat, state: Mask): Layout
    requires k < |l.children|
  {
    if state == STATE_NONE then l
    else l.(children := l.children[k := Child(state, l.children[k].visible)])
  }

  /** `addView(state, view)`: tag a view that has no parent yet and append it. */
  function AddChild(l: Layout, state: Mask, view: Child): Layout
  {
    if state == STATE_NONE then l
    else l.(children := l.children + [Child(state, view.visible)])
  }

  // ---------------------------------------------------------------------
  // The recompute pass

  /** Child `k` after a pass keeps its mask and is visible iff its mask overlaps the state. */
  lemma {:induction false} RecomputeAt(cs: seq<Child>, state: Mask, k: nat)
    requires k < |cs|
    ensures Recompute(cs, state)[k] == Child(cs[k].mask, HasFlag(cs[k].mask, state))
  {
    if k > 0 {
      RecomputeAt(cs[1..], state, k - 1);
    }
  }

  /** A pass keeps the masks and establishes `Shows`, whatever the visibilities were before. */
  lemma {:induction false} RecomputeShows(cs: seq<Child>, state: Mask)
    ensures Masks(Recompute(cs, state)) == Masks(cs)
    ensures Shows(Recompute(cs, state), state)
  {
    forall k | 0 <= k < |cs| {
      RecomputeAt(cs, state, k);
    }
  }

  /** A pass on children that already show `state` changes nothing. */
  lemma {:induction false} RecomputeStable(cs: seq<Child>, state: Mask)
    requires Shows(cs, state)
    ensures Recompute(cs, state) == cs
  {
    forall k | 0 <= k < |cs| ensures Recompute(cs, state)[k] == cs[k] {
      RecomputeAt(cs, state, k);
    }
  }

  /** The result of a pass depends on the masks and the state only. */
  lemma {:induction false} RecomputeForgetsVisibility(cs: seq<Child>, ds: seq<Child>, state: Mask)
    requires Masks(cs) == Masks(ds)
    ensures Recompute(cs, state) == Recompute(ds, state)
  {
    forall k | 0 <= k < |cs| ensures Recompute(cs, state)[k] == Recompute(ds, state)[k] {
      assert Masks(cs)[k] == Masks(ds)[k];
      RecomputeAt(cs, state, k);
      RecomputeAt(ds, state, k);
    }
  }

  // ---------------------------------------------------------------------
  // setState

  /** `setState` with the current state changes nothing, the recompute count included. */
  lemma SetStateSameIsNoOp(l: Layout, state: Mask)
    requires l.state == state
    ensures SetState(l, state) == l
  {
  }

  /**
   * `setState` with a new state assigns it, recomputes once, keeps the
   * attachment and every child's mask, and leaves child k visible iff its
   * mask overlaps the new state.
   */
  lemma SetStateChanges(l: Layout, state: Mask)
    requires l.state != state
    ensures SetState(l, state).state == state
    ensures SetState(l, state).attached == l.attached
    ensures SetState(l, state).recomputes == l.recomputes + 1
    ensures Masks(SetState(l, state).children) == Masks(l.children)
    ensures Shows(SetState(l, state).children, state)
  {
    RecomputeShows(l.children, state);
  }

  /** Two equal `setState` calls in a row recompute at most once: the second is a no-op. */
  lemma SetStateTwice(l: Layout, state: Mask)
    ensures SetState(SetState(l, state), state) == SetState(l, state)
    ensures SetState(SetState(l, state), state).recomputes <= l.recomputes + 1
  {
  }

  /** `setState(NONE)` from another state hides every child. */
  lemma SetStateNoneHidesAll(l: Layout)
    requires l.state != STATE_NONE
    ensures forall k :: 0 <= k < |l.children| ==> !SetState(l, STATE_NONE).children[k].visible
  {
    forall k | 0 <= k < |l.children| {
      RecomputeAt(l.children, STATE_NONE, k);
    }
  }

  /** A child never tagged (mask `-1`) is visible after `setState` to any new nonzero state. */
  lemma SetStateShowsUnsetChild(l: Layout, state: Mask, k: nat)
    requires l.state != state && state != STATE_NONE
    requires k < |l.children| && l.children[k].mask == UNSET
    ensures SetState(l, state).children[k].visible
  {
    RecomputeAt(l.children, state, k);
    UnsetOverlapsEveryState(state);
  }

  // ---------------------------------------------------------------------
  // initWith and attachment

  /** `initWith` always assigns the state; when attached the children then show it. */
  lemma InitWithAttached(l: Layout, state: Mask)
    requires l.attached
    ensures InitWith(l, state).state == state
    ensures InitWith(l, state).attached
    ensures InitWith(l, state).recomputes == l.recomputes + 1
    ensures Masks(InitWith(l, state).children) == Masks(l.children)
    ensures Shows(InitWith(l, state).children, state)
  {
    RecomputeShows(l.children, state);
  }

  /** `initWith` while detached assigns the state and leaves every child as it was. */
  lemma InitWithDetached(l: Layout, state: Mask)
    requires !l.attached
    ensures InitWith(l, state).state == state
    ensures !InitWith(l, state).attached
    ensures InitWith(l, state).children == l.children
    ensures InitWith(l, state).recomputes == l.recomputes
  {
  }

  /**
   * Attached, then detached: `initWith` assigns the state but leaves the
   * children as the attach left them, not showing the new state.
   */
  lemma InitWithAfterDetach(l: Layout, state: Mask)
    ensures InitWith(Detach(Attach(l)), state).state == state
    ensures InitWith(Detach(Attach(l)), state).children == Attach(l).children
    ensures Shows(InitWith(Detach(Attach(l)), state).children, l.state)
  {
    AttachShowsCurrentState(l);
  }

  /** Attaching keeps the state and masks and makes the children show the current state. */
  lemma AttachShowsCurrentState(l: Layout)
    ensures Attach(l).state == l.state && Attach(l).attached
    ensures Masks(Attach(l).children) == Masks(l.children)
    ensures Shows(Attach(l).children, l.state)
  {
    RecomputeShows(l.children, l.state);
  }

  /**
   * Children that show the current state still show it after `setState`,
   * whether or not it recomputes.
   */
  lemma SetStateKeepsInStep(l: Layout, state: Mask)
    requires Shows(l.children, l.state)
    ensures Shows(SetState(l, state).children, SetState(l, state).state)
  {
    if l.state != state {
      RecomputeShows(l.children, state);
    }
  }

  // ---------------------------------------------------------------------
  // Tagging children

  /** `setView(NONE, ...)` and `addView(NONE, ...)` change nothing. */
  lemma TagNoneIsNoOp(l: Layout, k: nat, view: Child)
    requires k < |l.children|
    ensures TagChild(l, k, STATE_NONE) == l
    ensures AddChild(l, STATE_NONE, view) == l
  {
  }

  /**
   * `setView(state, child k)` with a real state sets exactly child k's mask,
   * keeps every visibility and every other mask, and touches no other part.
   */
  lemma TagChildSetsOneMask(l: Layout, k: nat, state: Mask)
    requires k < |l.children| && state != STATE_NONE
    ensures TagChild(l, k, state).state == l.state
    ensures TagChild(l, k, state).recomputes == l.recomputes
    ensures |TagChild(l, k, state).children| == |l.children|
    ensures TagChild(l, k, state).children[k].mask == state
    ensures forall j :: 0 <= j < |l.children| ==>
      TagChild(l, k, state).children[j].visible == l.children[j].visible
    ensures forall j :: 0 <= j < |l.children| && j != k ==>
      TagChild(l, k, state).children[j] == l.children[j]
  {
  }

  /** `addView(state, view)` with a real state appends one child with that mask and keeps the others. */
  lemma AddChildAppends(l: Layout, state: Mask, view: Child)
    requires state != STATE_NONE
    ensures AddChild(l, state, view).state == l.state
    ensures AddChild(l, state, view).children[..|l.children|] == l.children
    ensures |AddChild(l, state, view).children| == |l.children| + 1
    ensures AddChild(l, state, view).children[|l.children|] == Child(state, view.visible)
  {
  }

  // ---------------------------------------------------------------------
  // The documented usage scenario

  /**
   * Register CONTENT and EMPTY children, initialise to CONTENT while attached:
   * only the CONTENT child shows; then `setState(EMPTY)` swaps them and
   * the state is EMPTY.
   */
  lemma ContentThenEmpty(l: Layout, v1: Child, v2: Child)
    requires l.attached && l.children == []
    ensures var a := InitWith(AddChild(AddChild(l, STATE_CONTENT, v1), STATE_EMPTY, v2), STATE_CONTENT);
      a.children == [Child(STATE_CONTENT, true), Child(STATE_EMPTY, false)] &&
      var b := SetState(a, STATE_EMPTY);
      b.children == [Child(STATE_CONTENT, false), Child(STATE_EMPTY, true)] &&
      b.state == STATE_EMPTY
  {
    var l1 := AddChild(AddChild(l, STATE_CONTENT, v1), STATE_EMPTY, v2);
    var a := InitWith(l1, STATE_CONTENT);
    RecomputeAt(l1.children, STATE_CONTENT, 0);
    RecomputeAt(l1.children, STATE_CONTENT, 1);
    RecomputeAt(a.children, STATE_EMPTY, 0);
    RecomputeAt(a.children, STATE_EMPTY, 1);
  }
}
