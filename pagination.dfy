/**
 * List pagination of the config server: the action-layer parameters and result
 * (services/config-server/internal/action/common.go).  Go's truncating `/` and `%` are written
 * out; a zero limit makes the source divide by zero, so it is excluded.
 */
module Pagination {
  import opened GoStrings

  datatype Params = Params(page: int, limit: int)

  /** `NewPagination`: the page raised to at least 1, a limit below 1 made 20 and one above 100 made 100. */
  function NewPagination(page: int, limit: int): (p: Params)
    ensures p.page >= 1 && 1 <= p.limit <= 100
    ensures page >= 1 ==> p.page == page
    ensures page < 1 ==> p.page == 1
    ensures limit < 1 ==> p.limit == 20
    ensures limit > 100 ==> p.limit == 100
    ensures 1 <= limit <= 100 ==> p.limit == limit
  {
    var page := if page < 1 then 1 else page;
    var limit := if limit < 1 then 20 else limit;
    var limit := if limit > 100 then 100 else limit;
    Params(page, limit)
  }

  /** Clamping parameters that are already in range changes nothing. */
  lemma NewPaginationIdempotent(page: int, limit: int)
    ensures var p := NewPagination(page, limit); NewPagination(p.page, p.limit) == p
  {
  }

  /** The page count of `NewListResult`: `total / limit`, plus one when there is a remainder. */
  function TotalPages(total: int, limit: int): (pages: int)
    requires limit != 0
  {
    var pages := GoDiv(total, limit);
    if GoMod(total, limit) > 0 then pages + 1 else pages
  }

  /** For a count and a positive limit the page count is the ceiling of `total / limit`. */
  lemma TotalPagesCeiling(total: nat, limit: int)
    requires limit >= 1
    ensures TotalPages(total, limit) >= 0
    ensures (TotalPages(total, limit) - 1) * limit < total <= TotalPages(total, limit) * limit
      || (total == 0 && TotalPages(total, limit) == 0)
  {
    var q, r := total / limit, total % limit;
    assert total == q * limit + r;
    assert GoMod(total, limit) == r;
    if r > 0 {
      assert TotalPages(total, limit) == q + 1;
      assert (q + 1) * limit == q * limit + limit;
    } else if total > 0 {
      assert q >= 1;
      assert (q - 1) * limit == q * limit - limit;
    }
  }

  datatype ListResult<T> = ListResult(items: seq<T>, page: int, limit: int, total: int, totalPages: int)

  /** `NewListResult`: items, page, limit and total as given, and the page count. */
  function NewListResult<T>(items: seq<T>, p: Params, total: int): (r: ListResult<T>)
    requires p.limit != 0
    ensures r.items == items && r.page == p.page && r.limit == p.limit && r.total == total
    ensures r.totalPages == TotalPages(total, p.limit)
  {
    ListResult(items, p.page, p.limit, total, TotalPages(total, p.limit))
  }
}

/**
 * The HTTP-layer pagination request and response (services/config-server/internal/api/dto/common.go).
 * The request is normalised in place.
 */
module PaginationDto {
  import Pagination

  class PaginationRequest {
    var page: int
    var limit: int

    constructor (page: int, limit: int)
      ensures this.page == page && this.limit == limit
    {
      this.page := page;
      this.limit := limit;
    }

    /** `Normalize`: the same clamping as `NewPagination`, applied to the request's own fields. */
    method Normalize()
      modifies this
      ensures page >= 1 && 1 <= limit <= 100
      ensures Pagination.Params(page, limit) == Pagination.NewPagination(old(page), old(limit))
      ensures old(page) >= 1 && 1 <= old(limit) <= 100 ==> page == old(page) && limit == old(limit)
    {
      if page < 1 {
        page := 1;
      }
      if limit < 1 {
        limit := 20;
      }
      if limit > 100 {
        limit := 100;
      }
    }

    /** `ToAction`. */
    function ToAction(): (p: Pagination.Params)
      reads this
      ensures p == Pagination.NewPagination(page, limit)
    {
      Pagination.NewPagination(page, limit)
    }
  }

  /** `DefaultPagination`: page 1 of 20. */
  method DefaultPagination() returns (req: PaginationRequest)
    ensures fresh(req) && req.page == 1 && req.limit == 20
  {
    req := new PaginationRequest(1, 20);
  }

  /** Normalising twice is normalising once. */
  method NormalizeTwice(req: PaginationRequest)
    modifies req
    ensures Pagination.Params(req.page, req.limit) == Pagination.NewPagination(old(req.page), old(req.limit))
  {
    req.Normalize();
    ghost var once := Pagination.Params(req.page, req.limit);
    req.Normalize();
    assert Pagination.Params(req.page, req.limit) == once;
  }

  datatype PaginationResponse = PaginationResponse(page: int, limit: int, total: int, totalPages: int)

  /** `NewPaginationResponse`: the request's page and limit, the total, and the page count. */
  function NewPaginationResponse(page: int, limit: int, total: int): (r: PaginationResponse)
    requires limit != 0
    ensures r.page == page && r.limit == limit && r.total == total
    ensures r.totalPages == Pagination.TotalPages(total, limit)
  {
    PaginationResponse(page, limit, total, Pagination.TotalPages(total, limit))
  }
}
