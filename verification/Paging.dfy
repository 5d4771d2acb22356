/** LIMIT/OFFSET paging: the page count and what the pages of a result are. */
module Paging {
  import opened Arithmetic

  /** The division rounds up; both operands are non-negative, as counts and parsed limits are. */
  function TotalPages(total: nat, limit: nat): nat
    requires limit >= 1
  {
    if total == 0 then 0 else (total + limit - 1) / limit
  }

  function Clamp(i: int, n: nat): (r: nat)
    ensures r <= n
  {
    if i < 0 then 0 else if i > n then n else i
  }

  /** Rows offset, ..., offset + limit - 1 of a result. */
  function LimitOffset<T>(rows: seq<T>, limit: nat, offset: nat): seq<T> {
    rows[Clamp(offset, |rows|)..Clamp(offset + limit, |rows|)]
  }

  function PageOf<T>(rows: seq<T>, page: nat, limit: nat): seq<T>
    requires page >= 1
  {
    LimitOffset(rows, limit, (page - 1) * limit)
  }

  /** Pages 1, ..., k one after the other. */
  function FirstPages<T>(rows: seq<T>, limit: nat, k: nat): seq<T> {
    if k == 0 then [] else FirstPages(rows, limit, k - 1) + PageOf(rows, k, limit)
  }

  lemma {:induction false} FirstPagesArePrefix<T>(rows: seq<T>, limit: nat, k: nat)
    ensures FirstPages(rows, limit, k) == rows[..Clamp(k * limit, |rows|)]
  {
    if k > 0 {
      FirstPagesArePrefix(rows, limit, k - 1);
      assert (k - 1) * limit + limit == k * limit;
      assert (k - 1) * limit >= 0;
    }
  }

  /** The last page starts inside the result and reaches its end. */
  lemma LastPage(total: nat, limit: nat)
    requires limit >= 1 && total >= 1
    ensures var k := TotalPages(total, limit);
            k >= 1 && 0 <= (k - 1) * limit < total <= k * limit
  {
    var k, r := (total + limit - 1) / limit, (total + limit - 1) % limit;
    DivMonotone(limit, total + limit - 1, limit);
    DivUnique(limit, limit, 1, 0);
    assert k * limit == total + limit - 1 - r;
    assert (k - 1) * limit == k * limit - limit;
  }

  /** Reading pages 1 to TotalPages gives every row once and in order; the last of them is not empty. */
  lemma PagesCoverResult<T>(rows: seq<T>, limit: nat)
    requires limit >= 1
    ensures FirstPages(rows, limit, TotalPages(|rows|, limit)) == rows
    ensures rows != [] ==> TotalPages(|rows|, limit) >= 1 && PageOf(rows, TotalPages(|rows|, limit), limit) != []
    ensures rows == [] ==> TotalPages(|rows|, limit) == 0
  {
    FirstPagesArePrefix(rows, limit, TotalPages(|rows|, limit));
    if rows != [] {
      LastPage(|rows|, limit);
    }
  }
}
