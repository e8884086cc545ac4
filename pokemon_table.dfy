/** app/components/pokemonTable.tsx: the numbered pager under the Pokémon table
    (which page numbers become links, which become "..." and which are left out),
    the link each number points to, the row numbering, and the component's own
    modal state driven by a row click and the close button. */
module PokemonTable {
  import opened Gateway
  import Numbers

  // ---------------------------------------------------------------------------
  // Numbered pagination
  // ---------------------------------------------------------------------------

  /** The number of pages of `pageSize` items needed for `total` items, rounded up. */
  function PageCount(total: nat, pageSize: nat): nat
    requires pageSize > 0
  {
    Numbers.CeilDiv(total, pageSize)
  }

  /** The candidate page numbers: 1 up to the page count, ascending. */
  function PageNumbers(pageCount: nat): seq<nat>
  {
    seq(pageCount, i => i + 1)
  }

  function Abs(x: int): nat
  {
    if x < 0 then -x else x
  }

  /** The first page, the last page and the pages next to the current one get a link. */
  predicate ShowsLink(num: int, page: int, pageCount: int)
  {
    num == 1 || num == pageCount || Abs(num - page) <= 1
  }

  /** The two places where the pager prints "..." instead of a number, when no link is there. */
  predicate NextToWindow(num: int, page: int, pageCount: int)
  {
    (num == page - 2 && num > 1) || (num == page + 2 && num < pageCount)
  }

  /** What the `pageNumbers.map` callback returns for one number: a link
      (highlighted when it is the current page), an ellipsis, or `null`. */
  datatype Cell = Link(num: nat, href: string, current: bool) | Ellipsis(num: nat) | Blank(num: nat)

  const PageQuery: string := "/?page="
  const NameQuery: string := "&name="

  /** The link of a page number: the page query with the number in decimal, then
      the name query with the filter box's text when that text is non-empty. The
      text is inserted as it is, without URL-encoding. */
  function Href(num: nat, search: string): string
  {
    PageQuery + Numbers.Decimal(num) + (if search != "" then NameQuery + search else "")
  }

  function Classify(num: nat, page: int, pageCount: nat, search: string): Cell
  {
    if ShowsLink(num, page, pageCount) then Link(num, Href(num, search), num == page)
    else if NextToWindow(num, page, pageCount) then Ellipsis(num)
    else Blank(num)
  }

  /** The callback applied to every page number, in order. */
  function Cells(page: int, pageCount: nat, search: string): seq<Cell>
  {
    var nums := PageNumbers(pageCount);
    seq(|nums|, i requires 0 <= i < |nums| => Classify(nums[i], page, pageCount, search))
  }

  /** The pager block: absent while a name filter is active. Its links are built
      from `search`, the text currently in the filter box, not from `filterName`. */
  function Pager(page: int, pageSize: nat, total: nat, filterName: string, search: string): Option<seq<Cell>>
    requires pageSize > 0
  {
    if filterName != "" then None else Some(Cells(page, PageCount(total, pageSize), search))
  }

  predicate Ascending(cells: seq<Cell>)
  {
    forall i, j :: 0 <= i < j < |cells| ==> cells[i].num < cells[j].num
  }

  /** The cells that `keep` selects, in their original order. */
  function Filter(cells: seq<Cell>, keep: Cell -> bool): (r: seq<Cell>)
    ensures |r| <= |cells|
    ensures forall c :: c in r <==> c in cells && keep(c)
    ensures Ascending(cells) ==> Ascending(r)
  {
    if cells == [] then []
    else
      var rest := Filter(cells[1..], keep);
      AscendingTail(cells);
      if keep(cells[0]) then [cells[0]] + rest else rest
  }

  lemma AscendingTail(cells: seq<Cell>)
    requires cells != []
    ensures forall c :: c in cells[1..] ==> c in cells
    ensures Ascending(cells) ==> Ascending(cells[1..]) && forall c :: c in cells[1..] ==> cells[0].num < c.num
  {
    if Ascending(cells) {
      forall c | c in cells[1..]
        ensures cells[0].num < c.num
      {
        var j :| 0 <= j < |cells[1..]| && cells[1..][j] == c;
        assert cells[j + 1] == c;
      }
    }
  }

  /** Two ascending runs with the same cells are the same run. */
  lemma {:induction false} AscendingUnique(r1: seq<Cell>, r2: seq<Cell>)
    requires Ascending(r1) && Ascending(r2)
    requires forall c :: c in r1 <==> c in r2
    ensures r1 == r2
  {
    assert r1 != [] ==> r1[0] in r2;
    assert r2 != [] ==> r2[0] in r1;
    if r1 != [] && r2 != [] {
      assert r2[0] in r1 && r1[0] in r2;
      var i :| 0 <= i < |r1| && r1[i] == r2[0];
      var j :| 0 <= j < |r2| && r2[j] == r1[0];
      assert r1[0].num <= r1[i].num && r2[0].num <= r2[j].num;
      assert r1[0] == r2[0];
      AscendingRest(r1);
      AscendingRest(r2);
      AscendingUnique(r1[1..], r2[1..]);
      assert r1 == [r1[0]] + r1[1..] && r2 == [r2[0]] + r2[1..];
    }
  }

  /** Dropping the first cell of an ascending run drops exactly that cell. */
  lemma AscendingRest(r: seq<Cell>)
    requires Ascending(r) && r != []
    ensures Ascending(r[1..])
    ensures forall c :: c in r[1..] <==> c in r && c != r[0]
  {
    AscendingTail(r);
    forall c | c in r && c != r[0]
      ensures c in r[1..]
    {
      var k :| 0 <= k < |r| && r[k] == c;
      assert r[1..][k - 1] == c;
    }
  }

  predicate IsLink(c: Cell) { c.Link? }
  predicate IsEllipsis(c: Cell) { c.Ellipsis? }
  predicate IsRendered(c: Cell) { !c.Blank? }

  /** What React puts on screen: the `null` results drop out. */
  function Rendered(cells: seq<Cell>): seq<Cell>
  {
    Filter(cells, IsRendered)
  }

  /** The pager has one cell per page number `1..pageCount`, in ascending order (none
      when there are no items), each classified by the pager's link/ellipsis rule. */
  lemma PagerShape(page: int, pageSize: nat, total: nat, filterName: string, search: string)
    requires pageSize > 0
    ensures Pager(page, pageSize, total, filterName, search).None? <==> filterName != ""
    ensures filterName == "" ==>
      var cells, n := Pager(page, pageSize, total, filterName, search).value, PageCount(total, pageSize);
      && |cells| == n
      && n * pageSize >= total && (n > 0 ==> (n - 1) * pageSize < total)
      && (total == 0 <==> cells == [])
      && Ascending(cells)
      && forall i :: 0 <= i < n ==>
        && cells[i].num == i + 1
        && (cells[i].Link? <==> ShowsLink(i + 1, page, n))
        && (cells[i].Ellipsis? <==> !ShowsLink(i + 1, page, n) && NextToWindow(i + 1, page, n))
        && (cells[i].Link? ==> cells[i].href == Href(i + 1, search) && (cells[i].current <==> i + 1 == page))
  {
  }

  /** A strictly ascending run of cells whose numbers lie in `S` has at most `|S|` cells. */
  lemma {:induction false} AscendingWithin(r: seq<Cell>, S: set<int>)
    requires Ascending(r)
    requires forall i :: 0 <= i < |r| ==> r[i].num in S
    ensures |r| <= |S|
  {
    if r != [] {
      var x := r[0].num;
      var tail := r[1..];
      forall i | 0 <= i < |tail|
        ensures tail[i].num in S - {x}
      {
        assert tail[i] == r[i + 1];
      }
      assert Ascending(tail) by {
        forall i, j | 0 <= i < j < |tail|
          ensures tail[i].num < tail[j].num
        {
          assert tail[i] == r[i + 1] && tail[j] == r[j + 1];
        }
      }
      AscendingWithin(tail, S - {x});
    }
  }

  /** Every cell of the pager is classified by the pager's link/ellipsis rule. */
  lemma CellRule(page: int, pageCount: nat, search: string, c: Cell)
    requires c in Cells(page, pageCount, search)
    ensures 1 <= c.num <= pageCount
    ensures c.Link? ==> c.num in {1, pageCount, page - 1, page, page + 1}
    ensures c.Ellipsis? ==> c.num in {page - 2, page + 2}
  {
    var cells := Cells(page, pageCount, search);
    var i :| 0 <= i < |cells| && cells[i] == c;
  }

  lemma {:induction false} SmallSets(a: int, b: int, c: int, d: int, e: int, f: int, g: int)
    ensures |{a, b, c, d, e}| <= 5
    ensures |{a, b, c, d, e} + {f, g}| <= 7
  {
  }

  /** Wherever the current page is, the pager shows at most five links. */
  lemma {:induction false} LinksAtMostFive(page: int, pageCount: nat, search: string)
    ensures |Filter(Cells(page, pageCount, search), IsLink)| <= 5
  {
    var links := Filter(Cells(page, pageCount, search), IsLink);
    var L: set<int> := {1, pageCount, page - 1, page, page + 1};
    forall i | 0 <= i < |links| ensures links[i].num in L {
      CellRule(page, pageCount, search, links[i]);
    }
    AscendingWithin(links, L);
    SmallSets(1, pageCount, page - 1, page, page + 1, page - 2, page + 2);
  }

  /** Wherever the current page is, the pager shows at most two ellipses. */
  lemma {:induction false} EllipsesAtMostTwo(page: int, pageCount: nat, search: string)
    ensures |Filter(Cells(page, pageCount, search), IsEllipsis)| <= 2
  {
    var dots := Filter(Cells(page, pageCount, search), IsEllipsis);
    var E: set<int> := {page - 2, page + 2};
    forall i | 0 <= i < |dots| ensures dots[i].num in E {
      CellRule(page, pageCount, search, dots[i]);
    }
    AscendingWithin(dots, E);
  }

  /** Wherever the current page is, the pager renders at most seven entries. */
  lemma {:induction false} RenderedAtMostSeven(page: int, pageCount: nat, search: string)
    ensures |Rendered(Cells(page, pageCount, search))| <= 7
  {
    var shown := Rendered(Cells(page, pageCount, search));
    var S: set<int> := {1, pageCount, page - 1, page, page + 1} + {page - 2, page + 2};
    forall i | 0 <= i < |shown| ensures shown[i].num in S {
      CellRule(page, pageCount, search, shown[i]);
    }
    AscendingWithin(shown, S);
    SmallSets(1, pageCount, page - 1, page, page + 1, page - 2, page + 2);
  }

  /** With the current page in `0..pageCount + 1`, every run of unlinked pages
      between two consecutive links holds exactly one ellipsis, next to the
      current window. A current page two or more outside `1..pageCount` (the
      `page` query parameter is not clamped) breaks this: see
      `OutOfRangePageHasNoEllipsis`. */
  lemma GapHoldsOneEllipsis(page: int, pageCount: nat, a: int, b: int)
    requires 0 <= page <= pageCount + 1
    requires 1 <= a && a + 1 < b <= pageCount
    requires ShowsLink(a, page, pageCount) && ShowsLink(b, page, pageCount)
    requires forall n :: a < n < b ==> !ShowsLink(n, page, pageCount)
    ensures exists n :: a < n < b && NextToWindow(n, page, pageCount)
    ensures forall n, m ::
      (a < n < b && a < m < b && NextToWindow(n, page, pageCount) && NextToWindow(m, page, pageCount)) ==> n == m
  {
    assert ShowsLink(page, page, pageCount);
    if b <= page {
      assert !ShowsLink(a + 1, page, pageCount);
      assert a == 1;
      assert a < page - 1 < b ==> !ShowsLink(page - 1, page, pageCount);
      assert b == page - 1;
      assert NextToWindow(page - 2, page, pageCount);
    } else {
      assert !ShowsLink(b - 1, page, pageCount);
      assert b == pageCount;
      assert a < page + 1 < b ==> !ShowsLink(page + 1, page, pageCount);
      assert a == page + 1;
      assert NextToWindow(page + 2, page, pageCount);
    }
  }

  /** On page 5 of 10 the pager reads 1 … 4 5 6 … 10, with 5 highlighted. */
  lemma PagerExample(search: string)
    ensures Rendered(Cells(5, 10, search)) == [
      Link(1, Href(1, search), false), Ellipsis(3), Link(4, Href(4, search), false),
      Link(5, Href(5, search), true), Link(6, Href(6, search), false), Ellipsis(7),
      Link(10, Href(10, search), false)]
  {
    var cells := Cells(5, 10, search);
    assert cells == [
      Link(1, Href(1, search), false), Blank(2), Ellipsis(3),
      Link(4, Href(4, search), false), Link(5, Href(5, search), true), Link(6, Href(6, search), false),
      Ellipsis(7), Blank(8), Blank(9), Link(10, Href(10, search), false)];
    var shown := [
      Link(1, Href(1, search), false), Ellipsis(3), Link(4, Href(4, search), false),
      Link(5, Href(5, search), true), Link(6, Href(6, search), false), Ellipsis(7),
      Link(10, Href(10, search), false)];
    assert Ascending(cells);
    assert Ascending(shown);
    AscendingUnique(Rendered(cells), shown);
  }

  /** On page 12 of 10 only the first and last links are drawn: the eight
      numbers between them render nothing and no ellipsis marks the gap. */
  lemma OutOfRangePageHasNoEllipsis(search: string)
    ensures Rendered(Cells(12, 10, search)) == [Link(1, Href(1, search), false), Link(10, Href(10, search), false)]
  {
    var cells := Cells(12, 10, search);
    assert cells == [
      Link(1, Href(1, search), false), Blank(2), Blank(3), Blank(4), Blank(5),
      Blank(6), Blank(7), Blank(8), Blank(9), Link(10, Href(10, search), false)];
    var shown := [Link(1, Href(1, search), false), Link(10, Href(10, search), false)];
    assert Ascending(cells);
    assert Ascending(shown);
    AscendingUnique(Rendered(cells), shown);
  }

  /** One page below the range still draws an ellipsis: page 0 of 10 reads 1 … 10
      with the ellipsis at 2. */
  lemma PageZeroKeepsEllipsis(search: string)
    ensures Rendered(Cells(0, 10, search)) == [Link(1, Href(1, search), false), Ellipsis(2), Link(10, Href(10, search), false)]
  {
    var cells := Cells(0, 10, search);
    assert cells == [
      Link(1, Href(1, search), false), Ellipsis(2), Blank(3), Blank(4), Blank(5),
      Blank(6), Blank(7), Blank(8), Blank(9), Link(10, Href(10, search), false)];
    var shown := [Link(1, Href(1, search), false), Ellipsis(2), Link(10, Href(10, search), false)];
    assert Ascending(cells);
    assert Ascending(shown);
    AscendingUnique(Rendered(cells), shown);
  }

  /** One page above the range still draws an ellipsis: page 11 of 10 reads 1 … 10
      with the ellipsis at 9. */
  lemma PageAfterLastKeepsEllipsis(search: string)
    ensures Rendered(Cells(11, 10, search)) == [Link(1, Href(1, search), false), Ellipsis(9), Link(10, Href(10, search), false)]
  {
    var cells := Cells(11, 10, search);
    assert cells == [
      Link(1, Href(1, search), false), Blank(2), Blank(3), Blank(4), Blank(5),
      Blank(6), Blank(7), Blank(8), Ellipsis(9), Link(10, Href(10, search), false)];
    var shown := [Link(1, Href(1, search), false), Ellipsis(9), Link(10, Href(10, search), false)];
    assert Ascending(cells);
    assert Ascending(shown);
    AscendingUnique(Rendered(cells), shown);
  }

  // ---------------------------------------------------------------------------
  // Where a page link leads
  // ---------------------------------------------------------------------------

  /** The query a pager link carries: a page number and an optional name filter. */
  datatype LinkTarget = LinkTarget(page: nat, name: string)

  /** Reads a link of the form `Href` builds; `None` for any other text. */
  function ParseHref(h: string): Option<LinkTarget>
  {
    if !(|PageQuery| <= |h| && h[..|PageQuery|] == PageQuery) then None
    else
      var rest := h[|PageQuery|..];
      var k := Numbers.LeadingDigits(rest);
      var digits, tail := rest[..k], rest[k..];
      if !Numbers.Canonical(digits) then None
      else if tail == "" then Some(LinkTarget(Numbers.ValueOf(digits), ""))
      else if |NameQuery| < |tail| && tail[..|NameQuery|] == NameQuery
      then Some(LinkTarget(Numbers.ValueOf(digits), tail[|NameQuery|..]))
      else None
  }

  /** `ParseHref` recovers a link's page number, and its search text exactly when
      that text is non-empty. This is a plain-text reading of the link; a URL
      query parser splits at `&`, stops at `#` and decodes `+` and `%`, so a
      search text holding those characters reaches the server page changed. */
  lemma HrefRoundTrip(num: nat, search: string)
    ensures ParseHref(Href(num, search)) == Some(LinkTarget(num, search))
  {
    var d := Numbers.Decimal(num);
    var t := if search != "" then NameQuery + search else "";
    var h := Href(num, search);
    assert h == PageQuery + (d + t);
    assert h[..|PageQuery|] == PageQuery;
    var rest := h[|PageQuery|..];
    assert rest == d + t;
    Numbers.LeadingDigitsOfConcat(d, t);
    assert rest[..|d|] == d && rest[|d|..] == t;
    Numbers.ValueOfDecimal(num);
    if search != "" {
      assert t[..|NameQuery|] == NameQuery && t[|NameQuery|..] == search;
    }
  }

  /** Every link `ParseHref` accepts is the one `Href` builds for what it reads. */
  lemma ParsedHrefIsCanonical(h: string)
    requires ParseHref(h).Some?
    ensures Href(ParseHref(h).value.page, ParseHref(h).value.name) == h
  {
    var rest := h[|PageQuery|..];
    var k := Numbers.LeadingDigits(rest);
    var digits, tail := rest[..k], rest[k..];
    Numbers.DecimalOfValue(digits);
    assert h == PageQuery + rest && rest == digits + tail;
    if tail != "" {
      assert tail == NameQuery + tail[|NameQuery|..];
    }
  }

  /** Distinct page numbers or search texts give distinct links. */
  lemma HrefInjective(n1: nat, s1: string, n2: nat, s2: string)
    requires Href(n1, s1) == Href(n2, s2)
    ensures n1 == n2 && s1 == s2
  {
    HrefRoundTrip(n1, s1);
    HrefRoundTrip(n2, s2);
  }

  // ---------------------------------------------------------------------------
  // Row numbers
  // ---------------------------------------------------------------------------

  /** The "#" column: each row's position in the page, counted from 1, so the numbering restarts on every page. */
  function RowNumbers(rows: seq<Pokemon>): (r: seq<nat>)
    ensures |r| == |rows|
    ensures forall i :: 0 <= i < |r| ==> r[i] == i + 1
  {
    if rows == [] then [] else RowNumbers(rows[..|rows| - 1]) + [|rows|]
  }

  // ---------------------------------------------------------------------------
  // The component's modal state
  // ---------------------------------------------------------------------------

  /** The component's `useState` cells: the text in its filter box, and the modal. */
  datatype ModalState = ModalState(search: string, modalOpen: bool, modalData: Option<PokemonDetail>, loading: bool)

  /** What the modal overlay shows. */
  datatype ModalView = NoModal | LoadingView | DetailView(detail: PokemonDetail) | NotFoundView

  function View(s: ModalState): ModalView
  {
    if !s.modalOpen then NoModal
    else if s.loading then LoadingView
    else match s.modalData
      case Some(d) => DetailView(d)
      case None => NotFoundView
  }

  /** State on first render: the filter box holds `filterName`; no modal. */
  function Mounted(filterName: string): ModalState
  {
    ModalState(filterName, false, None, false)
  }

  function Typed(s: ModalState, text: string): ModalState
  {
    s.(search := text)
  }

  /** `handleRowClick` up to its `await`: loading on, modal open. */
  function RowClickStarted(s: ModalState): ModalState
  {
    s.(loading := true, modalOpen := true)
  }

  /** `handleRowClick` after the detail request settles. A rejected request
      stops the handler before `setLoading(false)`, so nothing changes. */
  function RowClickFinished(s: ModalState, reply: Fetched<PokemonDetail>): ModalState
  {
    match reply
    case Ok(d) => s.(modalData := Some(d), loading := false)
    case NotOk => s.(modalData := None, loading := false)
    case Threw => s
  }

  /** The close button: the modal is hidden and nothing else changes. */
  function Closed(s: ModalState): ModalState
  {
    s.(modalOpen := false)
  }

  /** A row click shows "Loading..." at once, never a previous detail; once the
      request settles the modal shows the detail, "Not found." for a response
      without `ok`, and stays on "Loading..." when the request is rejected. */
  lemma RowClickOutcome(s: ModalState, reply: Fetched<PokemonDetail>)
    ensures View(RowClickStarted(s)) == LoadingView
    ensures var t := RowClickFinished(RowClickStarted(s), reply);
      && t.search == s.search
      && t.modalOpen
      && (reply.Ok? ==> View(t) == DetailView(reply.body) && !t.loading)
      && (reply.NotOk? ==> View(t) == NotFoundView && t.modalData == None && !t.loading)
      && (reply.Threw? ==> View(t) == LoadingView && t.modalData == s.modalData)
  {
  }

  /** Closing hides the modal and keeps its detail; a reply that arrives after the
      close stores its detail but the modal stays hidden. */
  lemma CloseBeforeReply(s: ModalState, reply: Fetched<PokemonDetail>)
    ensures View(Closed(s)) == NoModal && Closed(s).modalData == s.modalData
    ensures Closed(s).loading == s.loading && Closed(s).search == s.search
    ensures var t := RowClickFinished(Closed(RowClickStarted(s)), reply);
      View(t) == NoModal && (reply.Ok? ==> t.modalData == Some(reply.body))
  {
  }

  class TableView {
    var search: string
    var modalOpen: bool
    var modalData: Option<PokemonDetail>
    var loading: bool

    function State(): ModalState
      reads this
    {
      ModalState(search, modalOpen, modalData, loading)
    }

    constructor (filterName: string)
      ensures State() == Mounted(filterName)
    {
      search, modalOpen, modalData, loading := filterName, false, None, false;
    }

    /** The filter box's `onChange`. */
    method SetSearch(text: string)
      modifies this
      ensures State() == Typed(old(State()), text)
    {
      search := text;
    }

    /** The synchronous part of `handleRowClick`; returns the URL it requests. */
    method HandleRowClick(pokemon: Pokemon) returns (url: string)
      modifies this
      ensures State() == RowClickStarted(old(State()))
      ensures url == PokemonUrl(pokemon.name)
    {
      loading := true;
      modalOpen := true;
      url := PokemonUrl(pokemon.name);
    }

    /** The rest of `handleRowClick`, once the request has settled. */
    method RowClickSettled(reply: Fetched<PokemonDetail>)
      modifies this
      ensures State() == RowClickFinished(old(State()), reply)
    {
      match reply {
        case Ok(d) =>
          modalData := Some(d);
          loading := false;
        case NotOk =>
          modalData := None;
          loading := false;
        case Threw =>
      }
    }

    method CloseModal()
      modifies this
      ensures State() == Closed(old(State()))
    {
      modalOpen := false;
    }
  }
}
