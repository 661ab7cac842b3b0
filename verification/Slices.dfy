/** Slices: a window into an array that other slices may share. */
module Slices {
  /** Elements from..to of the array are seen; appending may go on up to `end`. */
  datatype Window<T> = Window(cells: array?<T>, from: nat, to: nat, end: nat) {
    predicate Fits() {
      from <= to <= end <= (if cells == null then 0 else cells.Length)
    }

    function Content(): seq<T>
      requires Fits()
      reads cells
    {
      if cells == null then [] else cells[from..to]
    }

    /** Appending writes to the array instead of taking a new one. */
    predicate HasRoom() { to < end }
  }

  /** A nil slice is an empty one without an array. */
  type Slice<T> = s: Window<T> | s.Fits() witness Window(null, 0, 0, 0)

  function Nil<T>(): Slice<T> { Window(null, 0, 0, 0) }

  /** A new array for the content, with some places to spare. */
  method Fresh<T>(content: seq<T>, spare: nat) returns (s: Slice<T>)
    ensures s.Content() == content && (s.cells == null || fresh(s.cells))
    ensures content != [] ==> s.end == s.to + spare
  {
    if content == [] {
      return Nil();
    }
    var cells := new T[|content| + spare](i => if 0 <= i < |content| then content[i] else content[0]);
    s := Window(cells, 0, |content|, cells.Length);
    assert cells[0..|content|] == content;
  }

  twostate predicate Kept<T>(s: Slice<T>)
    reads s.cells
  {
    s.cells != null ==> s.cells[..] == old(s.cells[..])
  }

  /** r is s with one more element: in the next place of the same array if there is room,
      in a new array otherwise. */
  twostate predicate Extended<T>(s: Slice<T>, x: T, new r: Slice<T>)
    reads s.cells
  {
    if s.HasRoom() then r == s.(to := s.to + 1) && s.cells[..] == old(s.cells[..])[s.to := x]
    else r.cells != null && fresh(r.cells) && Kept(s)
  }

  /** append: where there is no room, the elements move to a new array, in which the
      runtime leaves any number of places to spare. */
  method Append<T>(s: Slice<T>, x: T, spare: nat) returns (r: Slice<T>)
    modifies s.cells
    ensures r.Content() == old(s.Content()) + [x]
    ensures Extended(s, x, r) && (!s.HasRoom() ==> r.end == r.to + spare)
  {
    if s.HasRoom() {
      s.cells[s.to] := x;
      r := s.(to := s.to + 1);
    } else {
      r := Fresh(s.Content() + [x], spare);
    }
  }
}
