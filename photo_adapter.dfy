/** PhotoAdapter.kt: the photo grid of an album and of the bin, with its
    selection mode. A click opens a photo, or in selection mode toggles it;
    a long click starts selection mode with that photo. View binding and
    the `notify…` redraw calls are not modelled. */
module PhotoGrid {
  import opened Records
  import Selection

  /** The adapter's two fields. */
  datatype SelectionState = SelectionState(selectionMode: bool, selectedPhotos: seq<int>)

  const Initial := SelectionState(false, [])

  /** What the listeners keep true: the selected ids form a set, and
      nothing is selected outside selection mode. */
  predicate Coherent(st: SelectionState) {
    Selection.Distinct(st.selectedPhotos) && (!st.selectionMode ==> st.selectedPhotos == [])
  }

  /** `enableSelectionMode()` */
  function Enable(st: SelectionState): (r: SelectionState)
    ensures r.selectionMode && r.selectedPhotos == st.selectedPhotos
    ensures Coherent(st) ==> Coherent(r)
  {
    st.(selectionMode := true)
  }

  /** `disableSelectionMode()`: the mode off and the selection emptied,
      whatever they were. */
  function Disable(st: SelectionState): (r: SelectionState)
    ensures Coherent(r) && r == Initial
  {
    SelectionState(false, [])
  }

  /** `toggleSelection(photoId)`: flip the id's membership; once nothing
      is left selected, leave selection mode. */
  function Toggle(st: SelectionState, photoId: int): (r: SelectionState)
    ensures forall x :: x in r.selectedPhotos <==> (x in st.selectedPhotos <==> x != photoId)
    ensures r.selectedPhotos == [] ==> !r.selectionMode
    ensures r.selectedPhotos != [] ==> r.selectionMode == st.selectionMode
    ensures Coherent(st) && st.selectionMode ==> Coherent(r)
  {
    var selected := Selection.Toggle(st.selectedPhotos, photoId);
    if selected == [] then Disable(st) else st.(selectedPhotos := selected)
  }

  /** What a click leads to. */
  datatype ClickEffect = Toggled | Opened(photo: Photo, position: int)

  /** The click listener of a grid cell. */
  function Click(st: SelectionState, photo: Photo, position: int): (r: (SelectionState, ClickEffect))
    ensures st.selectionMode ==> r.1 == Toggled
    ensures !st.selectionMode ==> r == (st, Opened(photo, position))
    ensures Coherent(st) ==> Coherent(r.0)
  {
    if st.selectionMode then (Toggle(st, photo.id), Toggled)
    else (st, Opened(photo, position))
  }

  /** The long-click listener: the new state, and whether `onPhotoLongClick`
      was told. The listener always reports the long click consumed. */
  function LongClick(st: SelectionState, photo: Photo): (r: (SelectionState, bool))
    ensures st.selectionMode ==> r == (st, false)
    ensures !st.selectionMode ==> r.1
    ensures Coherent(st) ==> Coherent(r.0)
  {
    if st.selectionMode then (st, false)
    else (Toggle(Enable(st), photo.id), true)
  }

  /** A long click outside selection mode starts the mode with exactly the
      pressed photo selected. */
  lemma LongClickSelectsOnlyThat(st: SelectionState, photo: Photo)
    requires Coherent(st) && !st.selectionMode
    ensures LongClick(st, photo) == (SelectionState(true, [photo.id]), true)
  {
    assert Selection.Toggle([], photo.id) == [photo.id];
  }

  /** In selection mode a click flips the clicked photo's membership, keeps
      every other selection as it was, and opens nothing; when it removes
      the last photo the mode ends. */
  lemma ClickInSelectionMode(st: SelectionState, photo: Photo, position: int)
    requires Coherent(st) && st.selectionMode
    ensures var r := Click(st, photo, position).0;
      && (photo.id in r.selectedPhotos <==> photo.id !in st.selectedPhotos)
      && (forall x :: x != photo.id ==> (x in r.selectedPhotos <==> x in st.selectedPhotos))
      && (r.selectionMode <==> r.selectedPhotos != [])
  {
  }

  /** Clicking the same photo twice in selection mode gives back the same
      set of selected photos, unless the first click emptied the selection
      and ended the mode, after which the second click opens the photo. */
  lemma ClickTwice(st: SelectionState, photo: Photo, position: int)
    requires Coherent(st) && st.selectionMode
    ensures var once := Click(st, photo, position).0;
      var twice := Click(once, photo, position);
      once.selectionMode ==>
        Selection.Elements(twice.0.selectedPhotos) == Selection.Elements(st.selectedPhotos)
    ensures var once := Click(st, photo, position).0;
      !once.selectionMode ==> st.selectedPhotos == [photo.id] && Click(once, photo, position).1 == Opened(photo, position)
  {
    var once := Click(st, photo, position).0;
    Selection.ToggleTwice(st.selectedPhotos, photo.id);
    if !once.selectionMode {
      assert once.selectedPhotos == [];
      assert photo.id in st.selectedPhotos;
      assert |st.selectedPhotos| == 1;
      assert st.selectedPhotos == [st.selectedPhotos[0]];
    }
  }

  /** The grid adapter's state. */
  class PhotoAdapter {
    var selectionMode: bool
    var selectedPhotos: seq<int>

    function State(): SelectionState
      reads this
    {
      SelectionState(selectionMode, selectedPhotos)
    }

    /** The selected ids form a set: every method keeps this. */
    predicate Valid()
      reads this
    {
      Selection.Distinct(selectedPhotos)
    }

    constructor ()
      ensures Valid()
      ensures State() == Initial
    {
      selectionMode := false;
      selectedPhotos := [];
    }

    /** `toggleSelection(photoId)` */
    method ToggleSelection(photoId: int)
      modifies this
      ensures old(Valid()) ==> Valid()
      ensures State() == Toggle(old(State()), photoId)
    {
      if photoId in selectedPhotos {
        selectedPhotos := Selection.Remove(selectedPhotos, photoId);
      } else {
        selectedPhotos := selectedPhotos + [photoId];
      }
      if selectedPhotos == [] {
        DisableSelectionMode();
      }
    }

    /** `enableSelectionMode()` */
    method EnableSelectionMode()
      modifies this
      ensures old(Valid()) ==> Valid()
      ensures State() == Enable(old(State()))
    {
      selectionMode := true;
    }

    /** `disableSelectionMode()` */
    method DisableSelectionMode()
      modifies this
      ensures Valid()
      ensures State() == Disable(old(State()))
    {
      selectionMode := false;
      selectedPhotos := [];
    }

    /** `getSelectedPhotos()`: the ids in the order they were selected. */
    method GetSelectedPhotos() returns (ids: seq<int>)
      ensures Valid() ==> Selection.Distinct(ids)
      ensures forall x :: x in ids <==> x in selectedPhotos
      ensures ids == selectedPhotos
    {
      ids := selectedPhotos;
    }

    /** `isSelectionMode()` */
    method IsSelectionMode() returns (r: bool)
      ensures r == selectionMode
    {
      r := selectionMode;
    }

    /** `getSelectedCount()`: the number of distinct selected photos. */
    method GetSelectedCount() returns (n: int)
      requires Valid()
      ensures n == |Selection.Elements(selectedPhotos)|
    {
      Selection.DistinctSize(selectedPhotos);
      n := |selectedPhotos|;
    }

    /** The click listener of the cell showing `photo` at `position`. */
    method OnClick(photo: Photo, position: int) returns (effect: ClickEffect)
      modifies this
      ensures old(Valid()) ==> Valid()
      ensures (State(), effect) == Click(old(State()), photo, position)
    {
      if selectionMode {
        ToggleSelection(photo.id);
        effect := Toggled;
      } else {
        effect := Opened(photo, position);
      }
    }

    /** The long-click listener of the cell showing `photo`: whether the
        click was consumed and whether `onPhotoLongClick` was told. */
    method OnLongClick(photo: Photo) returns (consumed: bool, notified: bool)
      modifies this
      ensures consumed
      ensures old(Valid()) ==> Valid()
      ensures (State(), notified) == LongClick(old(State()), photo)
    {
      notified := false;
      if !selectionMode {
        EnableSelectionMode();
        ToggleSelection(photo.id);
        notified := true;
      }
      consumed := true;
    }
  }
}
