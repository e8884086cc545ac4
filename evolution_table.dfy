/** app/components/EvolutionTable.tsx: a Prev/Next pager over the evolution
    triggers, five per page, with rows numbered across pages. */
module EvolutionTable {
  import opened Gateway
  import Numbers

  /** `limit`: rows per page. */
  const Limit: nat := 5

  datatype EvolutionTrigger = EvolutionTrigger(name: string, url: string)

  /** The decoded body of one page of the collection: `{results, count}`. */
  datatype TriggerPage = TriggerPage(results: seq<EvolutionTrigger>, count: nat)

  /** Where a page starts in the listing: five items for each earlier page. */
  function Offset(page: int): int
  {
    Numbers.Offset(page, Limit)
  }

  /** The number of five-row pages needed for `count` items, rounded up. */
  function PageCount(count: nat): nat
  {
    Numbers.CeilDiv(count, Limit)
  }

  /** The Prev button's update: one page back, but never below page 1. */
  function PrevPage(p: int): int
  {
    if p - 1 > 1 then p - 1 else 1
  }

  /** The Next button's update: one page forward, but never past the last page. */
  function NextPage(p: int, pageCount: int): int
  {
    if p + 1 < pageCount then p + 1 else pageCount
  }

  predicate PrevDisabled(p: int)
  {
    p <= 1
  }

  predicate NextDisabled(p: int, pageCount: int)
  {
    p >= pageCount
  }

  /** The "#" column of a page: rows are numbered on from the page's offset, starting at one past it. */
  function RowNumbers(offset: int, rows: nat): (r: seq<int>)
    ensures |r| == rows
    ensures forall idx :: 0 <= idx < rows ==> r[idx] == offset + idx + 1
  {
    if rows == 0 then [] else RowNumbers(offset, rows - 1) + [offset + rows]
  }

  /** An enabled Prev moves back exactly one page; Prev never leaves page 1 or above. */
  lemma PrevStep(p: int)
    ensures p >= 1 ==> PrevPage(p) >= 1
    ensures !PrevDisabled(p) <==> PrevPage(p) == p - 1
    ensures PrevDisabled(p) && p >= 1 ==> PrevPage(p) == p
  {
  }

  /** An enabled Next moves forward exactly one page; Next never passes the last page. */
  lemma NextStep(p: int, pageCount: int)
    ensures NextPage(p, pageCount) <= pageCount
    ensures !NextDisabled(p, pageCount) ==> NextPage(p, pageCount) == p + 1
    ensures 1 <= p < pageCount ==> 1 <= NextPage(p, pageCount) <= pageCount
  {
  }

  /** Pressing an enabled Prev and then Next comes back to the same page. */
  lemma PrevThenNext(p: int, pageCount: int)
    requires !PrevDisabled(p) && p <= pageCount
    ensures !NextDisabled(PrevPage(p), pageCount)
    ensures NextPage(PrevPage(p), pageCount) == p
  {
  }

  /** Every trigger of the listing is shown on exactly one page between 1 and
      the page count, which begins at that page's offset. */
  lemma EveryTriggerOnOnePage(i: nat, count: nat)
    requires i < count
    ensures var p := i / Limit + 1;
      1 <= p <= PageCount(count) && Offset(p) <= i < Offset(p) + Limit
    ensures forall p: int :: Offset(p) <= i < Offset(p) + Limit ==> p == i / Limit + 1
  {
    Numbers.PageOfIndex(i, count, Limit);
  }

  /** Numbering is consecutive across pages: a full page ends one short of where
      the next page starts, and row `idx` of page `p` shows `(p - 1) * 5 + idx + 1`. */
  lemma {:induction false} NumberingIsConsecutive(p: int, idx: nat)
    requires idx < Limit
    ensures RowNumbers(Offset(p), Limit)[Limit - 1] + 1 == RowNumbers(Offset(p + 1), Limit)[0]
    ensures RowNumbers(Offset(p), Limit)[idx] == (p - 1) * Limit + idx + 1
  {
    Numbers.OffsetStep(p, Limit);
  }

  /** The last page of a non-empty listing starts inside it. */
  lemma LastPageHasRows(count: nat)
    requires count > 0
    ensures 0 <= Offset(PageCount(count)) < count
  {
    Numbers.LastPageStartsInside(count, Limit);
  }

  class EvolutionTableView {
    var data: seq<EvolutionTrigger>
    var loading: bool
    var page: int
    var count: nat

    /** The page is always at least 1. */
    ghost predicate Valid()
      reads this
    {
      page >= 1
    }

    /** The numbers in the "#" column for the rows held, at the current page's offset. */
    function Rows(): seq<int>
      reads this
    {
      RowNumbers(Offset(page), |data|)
    }

    /** First render: no rows, page 1, count 0. */
    constructor ()
      ensures Valid()
      ensures data == [] && !loading && page == 1 && count == 0
    {
      data, loading, page, count := [], false, 1, 0;
    }

    /** The effect that runs on mount and whenever `page` changes, up to its
        `fetch`; returns the `limit` and `offset` it requests. */
    method StartFetch() returns (limit: nat, offset: int)
      requires Valid()
      modifies this
      ensures Valid()
      ensures loading && data == old(data) && page == old(page) && count == old(count)
      ensures limit == Limit && offset == Offset(page) && offset >= 0
    {
      loading := true;
      limit, offset := Limit, Offset(page);
    }

    /** The effect's `.then` chain. A rejected chain has no handler, so nothing
        changes and "Loading..." stays. */
    method FetchSettled(reply: Option<TriggerPage>)
      requires Valid()
      modifies this
      ensures Valid() && page == old(page)
      ensures reply.Some? ==> data == reply.value.results && count == reply.value.count && !loading
      ensures reply.None? ==> data == old(data) && count == old(count) && loading == old(loading)
      ensures |Rows()| == |data|
      ensures forall idx :: 0 <= idx < |Rows()| ==> Rows()[idx] == (page - 1) * Limit + idx + 1
    {
      if reply.Some? {
        data := reply.value.results;
        count := reply.value.count;
        loading := false;
      }
    }

    /** A press on Prev; a disabled button ignores it. Returns whether `page`
        changed, which re-runs the effect. */
    method ClickPrev() returns (changed: bool)
      requires Valid()
      modifies this
      ensures Valid()
      ensures page == if PrevDisabled(old(page)) then old(page) else PrevPage(old(page))
      ensures changed <==> !PrevDisabled(old(page))
      ensures changed ==> page == old(page) - 1
      ensures data == old(data) && loading == old(loading) && count == old(count)
      ensures |Rows()| == |old(Rows())|
      ensures forall idx :: 0 <= idx < |Rows()| ==> Rows()[idx] == (page - 1) * Limit + idx + 1
      ensures changed ==> forall idx :: 0 <= idx < |Rows()| ==> Rows()[idx] == old(Rows())[idx] - Limit
    {
      changed := false;
      if !PrevDisabled(page) {
        page := PrevPage(page);
        changed := true;
      }
    }

    /** A press on Next; a disabled button ignores it. */
    method ClickNext() returns (changed: bool)
      requires Valid()
      modifies this
      ensures Valid()
      ensures page == if NextDisabled(old(page), PageCount(old(count))) then old(page)
                      else NextPage(old(page), PageCount(old(count)))
      ensures changed <==> !NextDisabled(old(page), PageCount(old(count)))
      ensures changed ==> page == old(page) + 1 && page <= PageCount(count)
      ensures data == old(data) && loading == old(loading) && count == old(count)
      ensures |Rows()| == |old(Rows())|
      ensures forall idx :: 0 <= idx < |Rows()| ==> Rows()[idx] == (page - 1) * Limit + idx + 1
      ensures changed ==> forall idx :: 0 <= idx < |Rows()| ==> Rows()[idx] == old(Rows())[idx] + Limit
    {
      changed := false;
      if !NextDisabled(page, PageCount(count)) {
        page := NextPage(page, PageCount(count));
        changed := true;
      }
    }
  }
}
