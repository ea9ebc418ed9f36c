/** An abstract recorder for the jsPDF document the components draw on. A document is a
    sequence of pages, each holding the items drawn on it in drawing order, a current page
    (where `text` and `line` draw) and the current font weight. Horizontal positions, font
    families, sizes, colours and line widths are not recorded. */
module Pdf {

  /** One drawn item: a single string, an array of wrapped lines drawn from one baseline,
      or a horizontal rule; `y` is the vertical position in millimetres. */
  datatype Item =
    | Text(s: string, y: int, bold: bool)
    | Lines(ls: seq<string>, y: int, bold: bool)
    | Rule(y: int)

  /** The document as a value. */
  datatype State = State(pages: seq<seq<Item>>, current: nat, bold: bool) {
    predicate Valid() { current < |pages| }
  }

  /** `new jsPDF()`: one empty page, the first one current, normal weight. */
  function Blank(): (st: State)
    ensures st.Valid() && st.pages == [[]] && st.current == 0 && !st.bold
  {
    State([[]], 0, false)
  }

  /** `addPage()`: a new empty page at the end, which becomes current. */
  function NewPage(st: State): (r: State)
    ensures r.Valid() && r.pages == st.pages + [[]] && r.current == |st.pages| && r.bold == st.bold
  {
    State(st.pages + [[]], |st.pages|, st.bold)
  }

  /** `setPage(n)`, with `n` counted from 1. */
  function GoToPage(st: State, n: nat): (r: State)
    requires 1 <= n <= |st.pages|
    ensures r.Valid() && r.pages == st.pages && r.current == n - 1 && r.bold == st.bold
  {
    st.(current := n - 1)
  }

  /** `setFont(..., "bold" | "normal")`. */
  function WithFont(st: State, bold: bool): (r: State)
    ensures r.pages == st.pages && r.current == st.current && r.bold == bold
  {
    st.(bold := bold)
  }

  /** Drawing appends an item to the current page and touches no other page. */
  function Put(st: State, it: Item): (r: State)
    requires st.Valid()
    ensures r.Valid() && |r.pages| == |st.pages| && r.current == st.current && r.bold == st.bold
    ensures r.pages[st.current] == st.pages[st.current] + [it]
    ensures forall k :: 0 <= k < |st.pages| && k != st.current ==> r.pages[k] == st.pages[k]
  {
    st.(pages := st.pages[st.current := st.pages[st.current] + [it]])
  }

  /** `text(s, x, y)` in the current weight. */
  function PutText(st: State, s: string, y: int): State
    requires st.Valid()
  {
    Put(st, Text(s, y, st.bold))
  }

  /** All items of all pages, page by page. */
  function Flatten(pages: seq<seq<Item>>): seq<Item> {
    if pages == [] then [] else Flatten(pages[..|pages| - 1]) + pages[|pages| - 1]
  }

  /** Drawing on the last page extends the flattened document by that item. */
  lemma FlattenPut(st: State, it: Item)
    requires st.Valid() && st.current == |st.pages| - 1
    ensures Flatten(Put(st, it).pages) == Flatten(st.pages) + [it]
  {
    var r := Put(st, it);
    assert r.pages[..|r.pages| - 1] == st.pages[..|st.pages| - 1];
  }

  /** A new page adds nothing to the flattened document. */
  lemma FlattenNewPage(st: State)
    ensures Flatten(NewPage(st).pages) == Flatten(st.pages)
  {
    assert NewPage(st).pages[..|st.pages|] == st.pages;
  }

  /** The document recorder that the drawing code mutates. */
  class Doc {
    var pages: seq<seq<Item>>
    var current: nat
    var bold: bool

    function Snapshot(): State
      reads this
    {
      State(pages, current, bold)
    }

    constructor ()
      ensures Snapshot() == Blank()
    {
      pages := [[]];
      current := 0;
      bold := false;
    }

    method AddPage()
      modifies this
      ensures Snapshot() == NewPage(old(Snapshot()))
    {
      current := |pages|;
      pages := pages + [[]];
    }

    method SetPage(n: nat)
      requires 1 <= n <= |pages|
      modifies this
      ensures Snapshot() == GoToPage(old(Snapshot()), n)
    {
      current := n - 1;
    }

    method SetBold(b: bool)
      modifies this
      ensures Snapshot() == WithFont(old(Snapshot()), b)
    {
      bold := b;
    }

    /** `text(s, x, y)`. */
    method Text(s: string, y: int)
      requires Snapshot().Valid()
      modifies this
      ensures Snapshot() == PutText(old(Snapshot()), s, y)
    {
      pages := pages[current := pages[current] + [Item.Text(s, y, bold)]];
    }

    /** `text(lines, x, y)` with an array of lines. */
    method TextLines(ls: seq<string>, y: int)
      requires Snapshot().Valid()
      modifies this
      ensures Snapshot() == Put(old(Snapshot()), Lines(ls, y, old(bold)))
    {
      pages := pages[current := pages[current] + [Lines(ls, y, bold)]];
    }

    /** `line(x1, y, x2, y)`: a horizontal rule. */
    method Line(y: int)
      requires Snapshot().Valid()
      modifies this
      ensures Snapshot() == Put(old(Snapshot()), Rule(y))
    {
      pages := pages[current := pages[current] + [Rule(y)]];
    }
  }
}
