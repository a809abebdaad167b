/** The sale repository: create, read, update, delete and filter over the
    persisted sale table, each answering with a response envelope.
    The store is an in-memory map; whether the store throws during an
    operation is the parameter `fault`, and the current time is `now`. */
module SaleRepo {
  import opened Sales

  class SaleRepository {
    /** The persisted `Sales` set, keyed by id. */
    var sales: Table
    /** The next value of the identity column. */
    var nextId: int

    /** Each record sits under its own id, and every id is positive and
        below the identity counter, so the counter is always fresh. */
    ghost predicate Valid()
      reads this
    {
      Keyed(sales) && 1 <= nextId &&
      forall id :: id in sales ==> 1 <= id < nextId
    }

    constructor ()
      ensures Valid() && sales == map[] && nextId == 1
    {
      sales := map[];
      nextId := 1;
    }

    /** `CreateAsync`: adds one record under a fresh id and returns it
        tagged Added; a store failure leaves the table as it was. */
    method Create(dto: CreateSaleDto, now: int, fault: bool) returns (r: Response)
      requires Valid()
      modifies this
      ensures Valid()
      ensures fault ==> r == Failure && sales == old(sales) && nextId == old(nextId)
      ensures !fault ==>
        var s := Sale(old(nextId), dto.amount, dto.saleDate, dto.representativeId, now, now);
        old(nextId) !in old(sales) &&
        sales == old(sales)[old(nextId) := s] && nextId == old(nextId) + 1 &&
        r == Response(true, false, Added, One(s))
    {
      if fault {
        return Failure;
      }
      var sale := Sale(nextId, dto.amount, dto.saleDate, dto.representativeId, now, now);
      sales := sales[nextId := sale];
      nextId := nextId + 1;
      r := Response(true, false, Added, One(sale));
    }

    /** `DeleteAsync`: removes exactly the given record and returns it
        tagged Deleted, or answers NotFound and changes nothing. */
    method Delete(saleId: int, fault: bool) returns (r: Response)
      requires Valid()
      modifies this
      ensures Valid() && nextId == old(nextId)
      ensures fault ==> r == Failure && sales == old(sales)
      ensures !fault && saleId !in old(sales) ==> r == NotFoundResponse && sales == old(sales)
      ensures !fault && saleId in old(sales) ==>
        sales == old(sales) - {saleId} &&
        r == Response(true, false, Deleted, One(old(sales)[saleId]))
    {
      if fault {
        return Failure;
      }
      if saleId !in sales {
        return NotFoundResponse;
      }
      var sale := sales[saleId];
      sales := sales - {saleId};
      r := Response(true, false, Deleted, One(sale));
    }

    /** `GetAllAsync`: every record, or NotFound when the table is empty. */
    method GetAll(fault: bool) returns (r: Response)
      requires Valid()
      ensures fault ==> r == Failure
      ensures !fault ==> (r == NotFoundResponse <==> sales == map[])
      ensures !fault && sales != map[] ==>
        r.isSuccess && !r.isError && r.message == Successful && r.result.Many? &&
        ListsExactly(r.result.sales, sales) && r.result.sales == Listing(sales)
    {
      if fault {
        return Failure;
      }
      var all := Listing(sales);
      if |all| <= 0 {
        return NotFoundResponse;
      }
      r := Response(true, false, Successful, Many(all));
    }

    /** `GetAsync`: the record with the given id, or NotFound. */
    method Get(saleId: int, fault: bool) returns (r: Response)
      requires Valid()
      ensures fault ==> r == Failure
      ensures !fault && saleId !in sales ==> r == NotFoundResponse
      ensures !fault && saleId in sales ==>
        r == Response(true, false, Successful, One(sales[saleId])) && r.result.sale.id == saleId
    {
      if fault {
        return Failure;
      }
      if saleId !in sales {
        return NotFoundResponse;
      }
      r := Response(true, false, Successful, One(sales[saleId]));
    }

    /** `UpdateAsync`: overwrites the amount, the representative and the
        update time of one record and echoes the request back. */
    method Update(saleId: int, dto: UpdateSaleDto, now: int, fault: bool) returns (r: Response)
      requires Valid()
      modifies this
      ensures Valid() && nextId == old(nextId)
      ensures fault ==> r == Failure && sales == old(sales)
      ensures !fault && saleId !in old(sales) ==> r == NotFoundResponse && sales == old(sales)
      ensures !fault && saleId in old(sales) ==>
        var was := old(sales)[saleId];
        sales == old(sales)[saleId := Sale(saleId, dto.amount, was.saleDate, dto.representativeId, was.createdOn, now)] &&
        r == Response(true, false, Modified, Echo(dto))
    {
      if fault {
        return Failure;
      }
      if saleId !in sales {
        return NotFoundResponse;
      }
      var sale := sales[saleId];
      sale := sale.(amount := dto.amount);
      sale := sale.(updatedOn := now);
      sale := sale.(representativeId := dto.representativeId);
      sales := sales[saleId := sale];
      r := Response(true, false, Modified, Echo(dto));
    }

    /** `GetSalesByFiltersAsync`: an invalid combination is answered without
        running a query; otherwise the selected records, or NotFound when
        none is selected. */
    method GetSalesByFilters(startDate: Option<int>, endDate: Option<int>, representativeId: int, fault: bool)
      returns (r: Response)
      requires Valid()
      ensures Mode(startDate, endDate, representativeId) == Invalid ==>
        r == Response(true, false, InvalidData, NoPayload)
      ensures Mode(startDate, endDate, representativeId) != Invalid && fault ==> r == Failure
      ensures Mode(startDate, endDate, representativeId) != Invalid && !fault ==>
        var sel := Selected(sales, Mode(startDate, endDate, representativeId));
        (sel == map[] ==> r == NotFoundResponse) &&
        (sel != map[] ==> r == Response(true, false, Successful, Many(Listing(sel))))
    {
      var filtered: seq<Sale> := [];
      if startDate.Some? && endDate.Some? {
        if fault {
          return Failure;
        }
        filtered := if representativeId <= 0 then
                      Listing(Selected(sales, DateRange(startDate.value, endDate.value)))
                    else
                      Listing(Selected(sales, DateRangeOfRep(startDate.value, endDate.value, representativeId)));
      } else if representativeId > 0 {
        if fault {
          return Failure;
        }
        filtered := Listing(Selected(sales, RepOnly(representativeId)));
      } else {
        return Response(true, false, InvalidData, NoPayload);
      }
      if |filtered| <= 0 {
        return NotFoundResponse;
      }
      r := Response(true, false, Successful, Many(filtered));
    }
  }

  /** Creating a sale and then fetching it by the id it was given returns
      the same amount, sale date and representative. */
  method CreateThenGet(repo: SaleRepository, dto: CreateSaleDto, now: int) returns (r: Response)
    requires repo.Valid()
    modifies repo
    ensures repo.Valid()
    ensures r.isSuccess && r.message == Successful && r.result.One?
    ensures r.result.sale.amount == dto.amount && r.result.sale.saleDate == dto.saleDate
    ensures r.result.sale.representativeId == dto.representativeId
  {
    var created := repo.Create(dto, now, false);
    r := repo.Get(created.result.sale.id, false);
  }

  /** Deleting an existing sale makes a later fetch of that id NotFound. */
  method DeleteThenGet(repo: SaleRepository, saleId: int) returns (deleted: Response, fetched: Response)
    requires repo.Valid() && saleId in repo.sales
    modifies repo
    ensures repo.Valid()
    ensures deleted.message == Deleted && deleted.result == One(old(repo.sales)[saleId])
    ensures fetched == NotFoundResponse
  {
    deleted := repo.Delete(saleId, false);
    fetched := repo.Get(saleId, false);
  }

  /** Updating an existing sale changes its stored amount and representative
      and sets its update time, which a later fetch shows. */
  method UpdateThenGet(repo: SaleRepository, saleId: int, dto: UpdateSaleDto, now: int) returns (fetched: Response)
    requires repo.Valid() && saleId in repo.sales
    modifies repo
    ensures repo.Valid()
    ensures fetched.message == Successful && fetched.result.One?
    ensures fetched.result.sale.amount == dto.amount
    ensures fetched.result.sale.representativeId == dto.representativeId
    ensures fetched.result.sale.updatedOn == now
    ensures fetched.result.sale.saleDate == old(repo.sales)[saleId].saleDate
  {
    var updated := repo.Update(saleId, dto, now, false);
    fetched := repo.Get(saleId, false);
  }
}
