/**
 * The paging buttons under the editor's tables: an offset stepped by a fixed page
 * size, and the query text with its LIMIT and OFFSET placeholders filled in.
 */
module TablePagination {
  import opened Strings

  const PageSize: int := 100

  /**
   * The offset after a click on a button whose text is `pageOption`. Both tests read
   * the offset the click started from, so when "Next" is matched it wins; "Prev" on
   * the first page does nothing at all.
   */
  function PageAfter(offset: int, limit: int, pageOption: string): int {
    if Contains(pageOption, "Prev") && offset == 0 then offset
    else if Contains(pageOption, "Next") then offset + limit
    else if Contains(pageOption, "Prev") then offset - limit
    else offset
  }

  /** The query text with the first "LIMIT" and then the first "OFFSET" filled in. */
  function Paged(queryString: string, limit: int, offset: int): string {
    JsReplace(JsReplace(queryString, "LIMIT", "limit: " + IntToString(limit)), "OFFSET", "offset: " + IntToString(offset))
  }

  /** The state of one pagination control. */
  class Pager {
    var offset: int
    var limit: int

    /** Offsets are whole pages from the start. */
    ghost predicate Valid()
      reads this
    {
      limit == PageSize && offset >= 0 && offset % limit == 0
    }

    constructor()
      ensures offset == 0 && limit == PageSize
      ensures Valid()
    {
      offset := 0;
      limit := PageSize;
    }

    /** `updatePage`: each matching test schedules an offset computed from the current one; the last scheduled wins. */
    method UpdatePage(pageOption: string)
      requires Valid()
      modifies this
      ensures Valid()
      ensures limit == old(limit)
      ensures offset == PageAfter(old(offset), old(limit), pageOption)
    {
      var current := offset;
      var scheduled := current;
      if current != 0 && Contains(pageOption, "Prev") {
        scheduled := current - limit;
      }
      if current == 0 && Contains(pageOption, "Prev") {
        return;
      }
      if Contains(pageOption, "Next") {
        scheduled := current + limit;
      }
      offset := scheduled;
    }

    /** `pageQuery`: the query with this page's limit and offset. */
    method PageQuery(queryString: string) returns (queryWithPage: string)
      ensures queryWithPage == Paged(queryString, limit, offset)
    {
      queryWithPage := JsReplace(queryString, "LIMIT", "limit: " + IntToString(limit));
      queryWithPage := JsReplace(queryWithPage, "OFFSET", "offset: " + IntToString(offset));
    }
  }

  /** "Prev" right after "Next" comes back to the page the clicks started from. */
  lemma PrevUndoesNext(offset: int, limit: int)
    requires offset >= 0 && limit > 0
    ensures PageAfter(PageAfter(offset, limit, "Next"), limit, "Prev") == offset
  {
    assert OccursAt("Next", "Next", 0);
    assert OccursAt("Prev", "Prev", 0);
    assert !Contains("Next", "Prev") by {
      forall i: nat | i <= 4 ensures !OccursAt("Next", "Prev", i) {
        if i == 0 { assert "Next"[0..4][0] != "Prev"[0]; }
      }
    }
    assert !Contains("Prev", "Next") by {
      forall i: nat | i <= 4 ensures !OccursAt("Prev", "Next", i) {
        if i == 0 { assert "Prev"[0..4][0] != "Next"[0]; }
      }
    }
  }

  /** The offset after a run of clicks. */
  function OffsetAfterClicks(offset: int, clicks: seq<string>): int
    decreases clicks
  {
    if clicks == [] then offset else OffsetAfterClicks(PageAfter(offset, PageSize, clicks[0]), clicks[1..])
  }

  /** Whatever the clicks, the offset stays a whole, non-negative number of pages. */
  lemma {:induction false} ClicksStayOnPages(offset: int, clicks: seq<string>)
    requires offset >= 0 && offset % PageSize == 0
    ensures OffsetAfterClicks(offset, clicks) >= 0
    ensures OffsetAfterClicks(offset, clicks) % PageSize == 0
    decreases clicks
  {
    if clicks != [] {
      ClicksStayOnPages(PageAfter(offset, PageSize, clicks[0]), clicks[1..]);
    }
  }

  /**
   * For a query whose LIMIT placeholder comes before its OFFSET placeholder, with no 'L'
   * before the first and no 'O' before the second, both are replaced in place.
   */
  lemma PagedFillsPlaceholders(a: string, b: string, c: string, limit: int, offset: int)
    requires 'L' !in a && 'O' !in a && 'O' !in b
    ensures Paged(a + "LIMIT" + b + "OFFSET" + c, limit, offset)
      == a + ("limit: " + IntToString(limit)) + b + ("offset: " + IntToString(offset)) + c
  {
    NoMarkers(limit);
    NoMarkers(offset);
    FillBoth(a, b, c, "limit: " + IntToString(limit), "offset: " + IntToString(offset));
  }

  lemma FillBoth(a: string, b: string, c: string, limitText: string, offsetText: string)
    requires 'L' !in a && 'O' !in a && 'O' !in b
    requires 'O' !in limitText && '$' !in limitText && '$' !in offsetText
    ensures JsReplace(JsReplace(a + "LIMIT" + b + "OFFSET" + c, "LIMIT", limitText), "OFFSET", offsetText)
      == a + limitText + b + offsetText + c
  {
    var rest := b + "OFFSET" + c;
    var s1 := a + limitText + b;
    assert a + "LIMIT" + b + "OFFSET" + c == a + "LIMIT" + rest;
    JsReplaceFront(a, "LIMIT", rest, limitText);
    assert a + limitText + rest == s1 + "OFFSET" + c;
    NotInConcat(a, limitText, b, 'O');
    JsReplaceFront(s1, "OFFSET", c, offsetText);
  }

  lemma NotInConcat(a: string, b: string, c: string, x: char)
    requires x !in a && x !in b && x !in c
    ensures x !in a + b + c
  {
  }

  lemma NoMarkers(n: int)
    ensures '$' !in "limit: " + IntToString(n) && 'O' !in "limit: " + IntToString(n)
    ensures '$' !in "offset: " + IntToString(n)
  {
    forall c | c in IntToString(n) ensures c != '$' && c != 'O' {
      IntToStringChars(n, c);
    }
  }
}
