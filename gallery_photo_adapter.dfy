/** GalleryPhotoAdapter.kt: the device-gallery grid of the import screen,
    where every click toggles a photo's selection and the screen is told
    the new count. View binding and redraws are not modelled. */
module GalleryGrid {
  import opened Records
  import Selection

  /** `currentList.filter { selectedPhotos.contains(it.id) }` */
  function SelectedOf(list: seq<GalleryPhoto>, selected: seq<int>): (r: seq<GalleryPhoto>)
    ensures |r| <= |list|
    ensures forall p :: p in r <==> p in list && p.id in selected
  {
    if list == [] then []
    else (if list[0].id in selected then [list[0]] else []) + SelectedOf(list[1..], selected)
  }

  /** The filter keeps the list's order: it distributes over concatenation,
      so every selected photo before another in the list comes before it in
      the result too. */
  lemma {:induction false} SelectedOfAppend(a: seq<GalleryPhoto>, b: seq<GalleryPhoto>, selected: seq<int>)
    ensures SelectedOf(a + b, selected) == SelectedOf(a, selected) + SelectedOf(b, selected)
  {
    if a != [] {
      assert (a + b)[0] == a[0];
      assert (a + b)[1..] == a[1..] + b;
      SelectedOfAppend(a[1..], b, selected);
    } else {
      assert a + b == b;
    }
  }

  /** The filter looks only at which ids are selected, not at the order in
      which they were. */
  lemma {:induction false} SelectedOfSameSet(list: seq<GalleryPhoto>, s: seq<int>, t: seq<int>)
    requires Selection.Elements(s) == Selection.Elements(t)
    ensures SelectedOf(list, s) == SelectedOf(list, t)
  {
    if list != [] {
      assert list[0].id in s <==> list[0].id in Selection.Elements(s);
      assert list[0].id in t <==> list[0].id in Selection.Elements(t);
      SelectedOfSameSet(list[1..], s, t);
    }
  }

  /** So two clicks on the same photo leave `getSelectedPhotos()` as it
      was, although the selection's own order may have changed. */
  lemma ToggleTwiceSameSelection(list: seq<GalleryPhoto>, selected: seq<int>, id: int)
    requires Selection.Distinct(selected)
    ensures SelectedOf(list, Selection.Toggle(Selection.Toggle(selected, id), id)) == SelectedOf(list, selected)
  {
    Selection.ToggleTwice(selected, id);
    SelectedOfSameSet(list, Selection.Toggle(Selection.Toggle(selected, id), id), selected);
  }

  /** The adapter: the list last submitted to it and the selected ids. */
  class GalleryPhotoAdapter {
    var currentList: seq<GalleryPhoto>
    var selectedPhotos: seq<int>

    /** The selected ids form a set: every method keeps this. */
    predicate Valid()
      reads this
    {
      Selection.Distinct(selectedPhotos)
    }

    constructor ()
      ensures Valid()
      ensures currentList == [] && selectedPhotos == []
    {
      currentList := [];
      selectedPhotos := [];
    }

    /** `submitList(list)`, inherited from ListAdapter; the selection is
        left alone. */
    method SubmitList(list: seq<GalleryPhoto>)
      modifies this
      ensures old(Valid()) ==> Valid()
      ensures currentList == list && selectedPhotos == old(selectedPhotos)
    {
      currentList := list;
    }

    /** `toggleSelection(photoId)` */
    method ToggleSelection(photoId: int)
      modifies this
      ensures old(Valid()) ==> Valid()
      ensures selectedPhotos == Selection.Toggle(old(selectedPhotos), photoId)
      ensures currentList == old(currentList)
    {
      if photoId in selectedPhotos {
        selectedPhotos := Selection.Remove(selectedPhotos, photoId);
      } else {
        selectedPhotos := selectedPhotos + [photoId];
      }
    }

    /** `getSelectedPhotos()`: the photos of the current list whose ids
        are selected, in list order. */
    method GetSelectedPhotos() returns (photos: seq<GalleryPhoto>)
      ensures photos == SelectedOf(currentList, selectedPhotos)
    {
      photos := SelectedOf(currentList, selectedPhotos);
    }

    /** `getSelectedCount()`: the number of distinct selected ids. */
    method GetSelectedCount() returns (n: int)
      requires Valid()
      ensures n == |Selection.Elements(selectedPhotos)|
    {
      Selection.DistinctSize(selectedPhotos);
      n := |selectedPhotos|;
    }

    /** `clearSelections()` */
    method ClearSelections()
      modifies this
      ensures Valid()
      ensures selectedPhotos == [] && currentList == old(currentList)
    {
      selectedPhotos := [];
    }

    /** The click listener of the cell showing `photo`: the number passed
        to `onSelectionChanged`, which is the size of the selection after
        the toggle. */
    method OnClick(photo: GalleryPhoto) returns (reported: int)
      requires Valid()
      modifies this
      ensures Valid()
      ensures selectedPhotos == Selection.Toggle(old(selectedPhotos), photo.id)
      ensures currentList == old(currentList)
      ensures reported == |Selection.Elements(selectedPhotos)|
      ensures reported == if photo.id in old(selectedPhotos) then |old(selectedPhotos)| - 1 else |old(selectedPhotos)| + 1
    {
      ToggleSelection(photo.id);
      reported := GetSelectedCount();
      Selection.DistinctSize(selectedPhotos);
    }
  }
}
